/** The append-only scrollback cache and the separators between messages, some of which look ahead to
  the role of the next message. */
module Scrollback {
  import opened Lines

  datatype Role = User | Assistant | ToolUse | ToolResult | Usage | Welcome | Unnamed | OtherRole

  datatype Message = Message(role: Role, content: string)

  /** What a message shows at its index and for a width, without the separators around it.  The index
    stands for the expansion state of the message, which stays fixed. */
  type Body = (Message, nat, nat) -> string

  predicate NextIs(messages: seq<Message>, i: nat, role: Role) {
    i + 1 < |messages| && messages[i + 1].role == role
  }

  /** Message `i` is followed by its continuation: a tool call right after the user's command, the
    result of a call, or the next call. */
  predicate Tight(messages: seq<Message>, i: nat)
    requires i < |messages|
  {
    match messages[i].role
    case User => NextIs(messages, i, ToolUse)
    case ToolUse => NextIs(messages, i, ToolResult)
    case ToolResult => NextIs(messages, i, ToolUse)
    case _ => false
  }

  function Separator(messages: seq<Message>, i: nat): string
    requires i < |messages|
  {
    match messages[i].role
    case User | ToolUse | ToolResult => if Tight(messages, i) then "\n" else "\n\n"
    case Usage => "\n"
    case Welcome => ""
    case Unnamed => ""
    case Assistant | OtherRole => "\n\n"
  }

  function RenderMessage(body: Body, messages: seq<Message>, i: nat, w: nat): string
    requires i < |messages|
  {
    var m := messages[i];
    if m.role == Assistant && Blank(m.content) then ""
    else (if m.role == User && i > 0 then "\n" else "") + body(m, i, w) + Separator(messages, i)
  }

  /** The full render of the first `n` messages. */
  function RenderUpTo(body: Body, messages: seq<Message>, n: nat, w: nat): string
    requires n <= |messages|
  {
    if n == 0 then "" else RenderUpTo(body, messages, n - 1, w) + RenderMessage(body, messages, n - 1, w)
  }

  function RenderAll(body: Body, messages: seq<Message>, w: nat): string {
    RenderUpTo(body, messages, |messages|, w)
  }

  /** The full render with one extra newline behind every message in `seams` that turned out to be
    followed by its continuation. */
  function WithSeams(body: Body, messages: seq<Message>, n: nat, w: nat, seams: set<nat>): string
    requires n <= |messages|
  {
    if n == 0 then ""
    else
      WithSeams(body, messages, n - 1, w, seams) + RenderMessage(body, messages, n - 1, w)
      + (if n - 1 in seams && Tight(messages, n - 1) then "\n" else "")
  }

  function TightSeams(messages: seq<Message>, n: nat, seams: set<nat>): nat
    requires n <= |messages|
  {
    if n == 0 then 0
    else TightSeams(messages, n - 1, seams) + (if n - 1 in seams && Tight(messages, n - 1) then 1 else 0)
  }

  /** The cache differs from the full render by exactly one newline per tight seam, so it equals the
    full render if and only if no seam is tight. */
  lemma {:induction false} SeamsCostOneNewlineEach(body: Body, messages: seq<Message>, n: nat, w: nat, seams: set<nat>)
    requires n <= |messages|
    ensures |WithSeams(body, messages, n, w, seams)|
        == |RenderUpTo(body, messages, n, w)| + TightSeams(messages, n, seams)
    ensures WithSeams(body, messages, n, w, seams) == RenderUpTo(body, messages, n, w)
        <==> TightSeams(messages, n, seams) == 0
  {
    hide RenderMessage, Tight;
    if n > 0 {
      SeamsCostOneNewlineEach(body, messages, n - 1, w, seams);
      var (cached, full) := (WithSeams(body, messages, n - 1, w, seams), RenderUpTo(body, messages, n - 1, w));
      var shown := RenderMessage(body, messages, n - 1, w);
      if TightSeams(messages, n, seams) == 0 {
        assert cached + shown + "" == full + shown;
      } else {
        LongerDiffers(WithSeams(body, messages, n, w, seams), RenderUpTo(body, messages, n, w));
      }
    }
  }

  // What is on show.

  function Concat(pieces: seq<string>): string {
    if pieces == [] then "" else Concat(pieces[..|pieces| - 1]) + pieces[|pieces| - 1]
  }

  /** `piece` is what message `i` puts on show: nothing for a reply of white space; otherwise its body,
    behind a newline for a user message that is not the first, and in front of its gap.  There is no gap
    behind a welcome or an unnamed message, one newline behind a usage line or a message that is
    continued (unless it was cached as a seam), and a blank line behind all others. */
  ghost predicate Shows(body: Body, messages: seq<Message>, i: nat, w: nat, seam: bool, piece: string)
    requires i < |messages|
  {
    var m := messages[i];
    var next := if i + 1 < |messages| then messages[i + 1].role else OtherRole;
    var continued :=
      (m.role == User && next == ToolUse) || (m.role == ToolUse && next == ToolResult)
      || (m.role == ToolResult && next == ToolUse);
    var gap :=
      if m.role == Welcome || m.role == Unnamed then ""
      else if m.role == Usage || (continued && !seam) then "\n"
      else "\n\n";
    if m.role == Assistant && forall k :: 0 <= k < |m.content| ==> IsSpace(m.content[k]) then piece == ""
    else piece == (if m.role == User && i > 0 then "\n" else "") + body(m, i, w) + gap
  }

  /** `out` shows all the messages, in order, and nothing else. */
  ghost predicate ShowsAll(body: Body, messages: seq<Message>, w: nat, seams: set<nat>, out: string) {
    exists pieces: seq<string> ::
      && |pieces| == |messages| && out == Concat(pieces)
      && forall i :: 0 <= i < |pieces| ==> Shows(body, messages, i, w, i in seams, pieces[i])
  }

  /** The cache shows every message but the replies of white space, in order, and nothing else but the
    newlines around them. */
  lemma {:induction false} CacheShowsAll(body: Body, messages: seq<Message>, w: nat, seams: set<nat>)
    ensures ShowsAll(body, messages, w, seams, WithSeams(body, messages, |messages|, w, seams))
  {
    hide Shows, WithSeams;
    var pieces := PiecesUpTo(body, messages, |messages|, w, seams);
  }

  lemma {:induction false} PiecesUpTo(body: Body, messages: seq<Message>, n: nat, w: nat, seams: set<nat>)
    returns (pieces: seq<string>)
    requires n <= |messages|
    ensures |pieces| == n && WithSeams(body, messages, n, w, seams) == Concat(pieces)
    ensures forall i :: 0 <= i < n ==> Shows(body, messages, i, w, i in seams, pieces[i])
  {
    hide Shows, RenderMessage, Tight;
    pieces := [];
    if n > 0 {
      var earlier := PiecesUpTo(body, messages, n - 1, w, seams);
      var piece := PieceShows(body, messages, n - 1, w, n - 1 in seams);
      pieces := earlier + [piece];
      var (before, shown) := (Concat(earlier), RenderMessage(body, messages, n - 1, w));
      var seam := if n - 1 in seams && Tight(messages, n - 1) then "\n" else "";
      assert before + (shown + seam) == (before + shown) + seam;
      assert pieces[..n - 1] == earlier;
    }
  }

  lemma PieceShows(body: Body, messages: seq<Message>, i: nat, w: nat, seam: bool) returns (piece: string)
    requires i < |messages|
    ensures piece == RenderMessage(body, messages, i, w) + (if seam && Tight(messages, i) then "\n" else "")
    ensures Shows(body, messages, i, w, seam, piece)
  {
    var shown := RenderMessage(body, messages, i, w);
    piece := shown + (if seam && Tight(messages, i) then "\n" else "");
    assert shown + "" == shown && "\n" + "\n" == "\n\n";
  }

  /** So does the full render, with one newline behind each message that is continued. */
  lemma RenderShowsAll(body: Body, messages: seq<Message>, w: nat)
    ensures ShowsAll(body, messages, w, {}, RenderAll(body, messages, w))
  {
    hide ShowsAll, WithSeams, RenderUpTo;
    NoSeams(body, messages, |messages|, w, {});
    CacheShowsAll(body, messages, w, {});
  }

  lemma LongerDiffers(a: string, b: string)
    requires |a| > |b|
    ensures a != b
  {
  }

  lemma {:induction false} NoSeams(body: Body, messages: seq<Message>, n: nat, w: nat, seams: set<nat>)
    requires n <= |messages| && forall i :: i in seams ==> i >= n
    ensures WithSeams(body, messages, n, w, seams) == RenderUpTo(body, messages, n, w)
  {
    if n > 0 {
      NoSeams(body, messages, n - 1, w, seams);
    }
  }

  /** A message renders the same in two lists that agree on it and on the message behind it. */
  lemma InnerUnchanged(body: Body, a: seq<Message>, b: seq<Message>, i: nat, w: nat)
    requires i + 1 < |a| && i + 1 < |b| && a[i] == b[i] && a[i + 1] == b[i + 1]
    ensures RenderMessage(body, a, i, w) == RenderMessage(body, b, i, w)
    ensures Tight(a, i) == Tight(b, i)
  {
  }

  /** A last message is followed by nothing, whatever came before it. */
  lemma LastTogether(body: Body, a: seq<Message>, b: seq<Message>, w: nat)
    requires |a| == |b| > 0 && a[|a| - 1] == b[|b| - 1]
    ensures RenderMessage(body, a, |a| - 1, w) == RenderMessage(body, b, |b| - 1, w)
    ensures !Tight(a, |a| - 1) && !Tight(b, |b| - 1)
  {
  }

  /** The last message loses a newline when it turns out to be followed by its continuation. */
  lemma LastMayTighten(body: Body, before: seq<Message>, after: seq<Message>, w: nat)
    requires before <= after && before != []
    ensures var i := |before| - 1;
            && !Tight(before, i)
            && RenderMessage(body, before, i, w)
               == RenderMessage(body, after, i, w) + (if Tight(after, i) then "\n" else "")
  {
    var i := |before| - 1;
    assert before[i] == after[i];
    if Tight(after, i) {
      assert "\n\n" == "\n" + "\n";
    }
  }

  /** What is cached for the messages before the last one does not depend on what follows. */
  lemma {:induction false} SeamsInner(body: Body, before: seq<Message>, after: seq<Message>, n: nat, w: nat,
                                      seams: set<nat>, more: set<nat>)
    requires before <= after && n < |before|
    requires forall i :: 0 <= i < n ==> (i in seams <==> i in more)
    ensures WithSeams(body, before, n, w, seams) == WithSeams(body, after, n, w, more)
  {
    hide RenderMessage, Tight;
    if n > 0 {
      SeamsInner(body, before, after, n - 1, w, seams, more);
      InnerUnchanged(body, before, after, n - 1, w);
    }
  }

  /** Appending messages behind a cached list turns its last message into a seam. */
  lemma AppendMakesSeam(body: Body, before: seq<Message>, after: seq<Message>, w: nat, seams: set<nat>)
    requires before <= after && before != [] && forall i :: i in seams ==> i + 1 < |before|
    ensures WithSeams(body, before, |before|, w, seams)
         == WithSeams(body, after, |before|, w, seams + {|before| - 1})
  {
    hide RenderMessage, Tight;
    var n: nat := |before| - 1;
    SeamsInner(body, before, after, n, w, seams, seams + {n});
    LastMayTighten(body, before, after, w);
  }

  /** The next uncached message is rendered from the live list as it would be from the cached one. */
  lemma GrowByOne(body: Body, cached: seq<Message>, live: seq<Message>, i: nat, w: nat, seams: set<nat>)
    requires i < |live| == |cached| && live[i..] == cached[i..] && i !in seams
    ensures WithSeams(body, cached, i + 1, w, seams)
         == WithSeams(body, cached, i, w, seams) + RenderMessage(body, live, i, w)
  {
    hide RenderMessage, Tight;
    assert live[i] == live[i..][0] == cached[i];
    if i + 1 < |live| {
      assert live[i + 1] == live[i..][1] == cached[i + 1];
      InnerUnchanged(body, live, cached, i, w);
    } else {
      assert live[i..] == [live[i]] && cached[i..] == [cached[i]];
      LastTogether(body, live, cached, w);
    }
  }

  /** The messages `from..` of a list, rendered in it. */
  function RenderFrom(body: Body, live: seq<Message>, from: nat, n: nat, w: nat): string
    requires from <= n <= |live|
  {
    if from == n then "" else RenderFrom(body, live, from, n - 1, w) + RenderMessage(body, live, n - 1, w)
  }

  /** The list was longer each time it was shown. */
  ghost predicate Growing(counts: seq<nat>, total: nat) {
    && (forall k :: 0 <= k < |counts| ==> 0 < counts[k] <= total)
    && (forall j, k :: 0 <= j < k < |counts| ==> counts[j] < counts[k])
  }

  /** The cache after it was brought up to date at each of these lengths of the list, in turn. */
  ghost function CacheAfter(body: Body, messages: seq<Message>, counts: seq<nat>, w: nat): string
    requires Growing(counts, |messages|)
  {
    if counts == [] then ""
    else
      var (earlier, n) := (counts[..|counts| - 1], counts[|counts| - 1]);
      CacheAfter(body, messages, earlier, w)
      + RenderFrom(body, messages[..n], if earlier == [] then 0 else earlier[|earlier| - 1], n, w)
  }

  ghost function SeamsOf(counts: seq<nat>): set<nat>
    requires forall k :: 0 <= k < |counts| ==> 0 < counts[k]
  {
    if |counts| <= 1 then {} else SeamsOf(counts[..|counts| - 1]) + {counts[|counts| - 2] - 1}
  }

  /** The cache after any run of appends, however the messages arrived: the full render of the
    messages shown last, with one extra newline at each tight seam. */
  lemma {:induction false} AppendOnlyRun(body: Body, messages: seq<Message>, counts: seq<nat>, w: nat)
    requires counts != [] && Growing(counts, |messages|)
    ensures var n := counts[|counts| - 1];
            && (forall i :: i in SeamsOf(counts) ==> i + 1 < n)
            && CacheAfter(body, messages, counts, w)
               == WithSeams(body, messages[..n], n, w, SeamsOf(counts))
  {
    hide RenderMessage, Tight;
    var (earlier, n) := (counts[..|counts| - 1], counts[|counts| - 1]);
    var live := messages[..n];
    if earlier == [] {
      GrowFrom(body, live, 0, n, w, {}, "");
    } else {
      var m := earlier[|earlier| - 1];
      AppendOnlyRun(body, messages, earlier, w);
      assert live[..m] == messages[..m];
      AppendMakesSeam(body, messages[..m], live, w, SeamsOf(earlier));
      GrowFrom(body, live, m, n, w, SeamsOf(counts), CacheAfter(body, messages, earlier, w));
    }
  }

  lemma {:induction false} GrowFrom(body: Body, live: seq<Message>, from: nat, n: nat, w: nat, seams: set<nat>,
                                    cached: string)
    requires from <= n <= |live| && forall i :: i in seams ==> i < from
    requires cached == WithSeams(body, live, from, w, seams)
    ensures cached + RenderFrom(body, live, from, n, w) == WithSeams(body, live, n, w, seams)
  {
    hide RenderMessage, Tight;
    if from < n {
      GrowFrom(body, live, from, n - 1, w, seams, cached);
      var (a, b) := (RenderFrom(body, live, from, n - 1, w), RenderMessage(body, live, n - 1, w));
      assert cached + (a + b) == (cached + a) + b;
    }
  }

  /** The difference is real: for every renderer, a tool call that arrives after the user's command was
    shown leaves one newline too many in the cache. */
  lemma ToolCallLeavesASeam(body: Body, command: Message, call: Message, w: nat)
    requires command.role == User && call.role == ToolUse
    ensures var messages := [command, call];
            && CacheAfter(body, messages, [1, 2], w) != RenderAll(body, messages, w)
            && |CacheAfter(body, messages, [1, 2], w)| == |RenderAll(body, messages, w)| + 1
  {
    var messages := [command, call];
    hide RenderMessage, CacheAfter, WithSeams, RenderUpTo;
    AppendOnlyRun(body, messages, [1, 2], w);
    assert messages[..2] == messages;
    assert [1, 2][..1] == [1];
    assert SeamsOf([1]) == {};
    assert SeamsOf([1, 2]) == {0};
    SeamsCostOneNewlineEach(body, messages, 2, w, {0});
    assert TightSeams(messages, 1, {0}) == 1;
    assert TightSeams(messages, 2, {0}) == 1;
  }

  class Cache {
    const body: Body
    var messages: seq<Message>
    var stable: string
    var renderedMsgs: nat
    var renderWidth: nat
    var lastMsgLen: nat

    /** The messages as they were when each was rendered into the cache, and the places where an
      append met what was cached before. */
    ghost var rendered: seq<Message>
    ghost var seams: set<nat>

    /** The cache holds the full render of `rendered`, but for the tight seams, and shows all of it. */
    ghost predicate Holds()
      reads this`stable, this`renderedMsgs, this`renderWidth, this`rendered, this`seams
    {
      && renderedMsgs == |rendered|
      && stable == WithSeams(body, rendered, |rendered|, renderWidth, seams)
      && ShowsAll(body, rendered, renderWidth, seams, stable)
      && (forall i :: i in seams ==> i + 1 < |rendered|)
    }

    ghost predicate Valid()
      reads this
    {
      && Holds()
      && lastMsgLen == (if rendered == [] then 0 else |rendered[|rendered| - 1].content|)
    }

    constructor (body: Body)
      ensures Valid() && messages == [] && this.body == body
    {
      this.body := body;
      messages, stable, renderedMsgs, renderWidth, lastMsgLen := [], "", 0, 0, 0;
      rendered, seams := [], {};
      CacheShowsAll(body, [], 0, {});
    }

    /** Forgets everything, as a resize, a trim or an expansion toggle does. */
    method Invalidate()
      modifies this`stable, this`renderedMsgs, this`renderWidth, this`lastMsgLen, this`rendered, this`seams
      ensures Valid() && stable == "" && rendered == []
    {
      stable, renderedMsgs, renderWidth, lastMsgLen := "", 0, 0, 0;
      rendered, seams := [], {};
      CacheShowsAll(body, rendered, renderWidth, seams);
    }

    static method RenderMessagesRange(body: Body, messages: seq<Message>, start: nat, end: nat, w: nat)
      returns (out: string)
      requires start <= end <= |messages|
      ensures RenderUpTo(body, messages, start, w) + out == RenderUpTo(body, messages, end, w)
    {
      hide RenderMessage;
      out := "";
      ghost var before := RenderUpTo(body, messages, start, w);
      for i := start to end
        invariant before + out == RenderUpTo(body, messages, i, w)
      {
        var shown := RenderMessage(body, messages, i, w);
        assert (before + out) + shown == before + (out + shown);
        out := out + shown;
      }
    }

    /** Renders the messages behind the cached ones onto the cache. */
    method AppendNew()
      requires Holds() && 0 < renderedMsgs < |messages|
      modifies this`stable, this`renderedMsgs, this`rendered, this`seams
      ensures Holds() && renderedMsgs == |rendered| && rendered == old(rendered) + messages[old(|rendered|)..]
      ensures seams == old(seams) + {old(|rendered|) - 1} && old(stable) <= stable
    {
      hide RenderMessage, Tight, WithSeams, ShowsAll;
      ghost var cached := rendered + messages[renderedMsgs..];
      ghost var marked := seams + {renderedMsgs - 1};
      AppendMakesSeam(body, rendered, cached, renderWidth, seams);
      var content := stable;
      for i := renderedMsgs to |messages|
        invariant content == WithSeams(body, cached, i, renderWidth, marked) && old(stable) <= content
      {
        GrowByOne(body, cached, messages, i, renderWidth, marked);
        content := content + RenderMessage(body, messages, i, renderWidth);
      }
      stable, renderedMsgs := content, |messages|;
      rendered, seams := cached, marked;
      CacheShowsAll(body, rendered, renderWidth, seams);
    }

    /** Renders the cached messages again, the last one apart from those before it. */
    method RebuildLast()
      requires renderedMsgs == |messages| > 0
      modifies this`stable, this`rendered, this`seams
      ensures Holds() && rendered == messages && seams == {} && stable == RenderAll(body, messages, renderWidth)
    {
      hide RenderMessage, ShowsAll, WithSeams;
      NoSeams(body, messages, |messages|, renderWidth, {});
      var prefix := RenderMessagesRange(body, messages, 0, renderedMsgs - 1, renderWidth);
      var tail := RenderMessage(body, messages, renderedMsgs - 1, renderWidth);
      assert "" + prefix == prefix;
      stable := prefix + tail;
      rendered, seams := messages, {};
      CacheShowsAll(body, rendered, renderWidth, seams);
    }

    method Rebuild(w: nat)
      modifies this`stable, this`renderedMsgs, this`renderWidth, this`rendered, this`seams
      ensures Holds() && rendered == messages && seams == {} && renderedMsgs == |messages| && renderWidth == w
      ensures stable == RenderAll(body, messages, w)
    {
      hide RenderMessage, ShowsAll, WithSeams;
      NoSeams(body, messages, |messages|, w, {});
      stable := RenderMessagesRange(body, messages, 0, |messages|, w);
      assert "" + stable == stable;
      renderedMsgs, renderWidth := |messages|, w;
      rendered, seams := messages, {};
      CacheShowsAll(body, rendered, renderWidth, seams);
    }

    /** Brings the cache up to date.  After a change of the width, with fewer messages than are cached,
      or with nothing cached, it is rebuilt; so it is when the number of messages is the same and the
      length of the last one is not.  Then it is exactly the full render of the current messages.
      Otherwise messages that were appended are rendered behind what is cached, which stays as it was,
      and one seam is added.  In every case all messages are on show. */
    method Assemble(w: nat)
      requires Valid()
      modifies this`stable, this`renderedMsgs, this`renderWidth, this`lastMsgLen, this`rendered, this`seams
      ensures Valid() && renderWidth == w && renderedMsgs == |messages|
      ensures old(|| renderWidth != w || renderedMsgs > |messages| || stable == ""
                  || (renderedMsgs == |messages| && |messages[|messages| - 1].content| != lastMsgLen)) ==>
                rendered == messages && seams == {} && stable == RenderAll(body, messages, w)
      ensures old(&& renderWidth == w && renderedMsgs <= |messages| && stable != ""
                  && (renderedMsgs == |messages| ==> |messages[|messages| - 1].content| == lastMsgLen)) ==>
                && rendered == old(rendered) + messages[old(|rendered|)..] && old(stable) <= stable
                && seams == (if old(|rendered|) < |messages| then old(seams) + {old(|rendered|) - 1} else old(seams))
      ensures old(rendered <= messages) ==> rendered == messages
    {
      hide RenderAll, RenderMessage, ShowsAll;
      assert renderedMsgs == |rendered| && (renderedMsgs == 0 ==> stable == "");
      hide Holds, WithSeams;
      var fullRebuild := renderWidth != w || renderedMsgs > |messages| || stable == "";
      if !fullRebuild && renderedMsgs < |messages| {
        AppendNew();
      } else if !fullRebuild && renderedMsgs == |messages| && renderedMsgs > 0 {
        var last := messages[renderedMsgs - 1];
        if |last.content| != lastMsgLen {
          RebuildLast();
        }
      }
      if fullRebuild {
        Rebuild(w);
      }
      lastMsgLen := if renderedMsgs > 0 then |messages[renderedMsgs - 1].content| else 0;
    }
  }
}
