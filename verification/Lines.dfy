/** Text as the renderers see it: lines, white space, and fenced code blocks. */
module Lines {

  /** Unicode white space. */
  predicate IsSpace(c: char) {
    '\U{9}' <= c <= '\U{D}' || c == ' ' || c == '\U{85}' || c == '\U{A0}' || c == '\U{1680}'
    || '\U{2000}' <= c <= '\U{200A}' || c == '\U{2028}' || c == '\U{2029}' || c == '\U{202F}' || c == '\U{205F}'
    || c == '\U{3000}'
  }

  function TrimLeft(s: string): string {
    if s != "" && IsSpace(s[0]) then TrimLeft(s[1..]) else s
  }

  function TrimRight(s: string): string {
    if s != "" && IsSpace(s[|s| - 1]) then TrimRight(s[..|s| - 1]) else s
  }

  function TrimSpace(s: string): string {
    TrimRight(TrimLeft(s))
  }

  function TrimNewlines(s: string): string {
    if s != "" && s[|s| - 1] == '\n' then TrimNewlines(s[..|s| - 1]) else s
  }

  /** A line of white space only. */
  predicate Blank(line: string) {
    forall i :: 0 <= i < |line| ==> IsSpace(line[i])
  }

  /** The index of the first newline, or -1. */
  function IndexNewline(s: string): (n: int)
    ensures -1 <= n < |s|
    ensures n >= 0 ==> s[n] == '\n'
    ensures forall i :: 0 <= i < (if n < 0 then |s| else n) ==> s[i] != '\n'
  {
    if s == "" then -1
    else if s[0] == '\n' then 0
    else
      var n := IndexNewline(s[1..]);
      assert forall i :: 0 < i < |s| ==> s[i] == s[1..][i - 1];
      if n < 0 then -1 else n + 1
  }

  const FENCE := "```"

  /** Whether a code fence is open after `line`: any line that begins with a fence opens one, and
    only a bare fence closes it. */
  predicate FenceAfter(inFence: bool, line: string) {
    if inFence then TrimSpace(line) != FENCE else FENCE <= TrimSpace(line)
  }

  /** Whether a fence is open after the complete lines of `s`. */
  predicate Fences(s: string, inFence: bool)
    decreases |s|
  {
    var nl := IndexNewline(s);
    if nl < 0 then inFence else Fences(s[nl + 1..], FenceAfter(inFence, s[..nl]))
  }

  /** `s` stops at a line start. */
  predicate AtLineStart(s: string) {
    s == "" || s[|s| - 1] == '\n'
  }

  lemma FirstLine(a: string, b: string)
    requires IndexNewline(a) >= 0
    ensures var n := IndexNewline(a);
            IndexNewline(a + b) == n && (a + b)[..n] == a[..n] && (a + b)[n + 1..] == a[n + 1..] + b
  {
    hide IndexNewline;
    var n, m := IndexNewline(a), IndexNewline(a + b);
    assert (a + b)[n] == '\n';
    assert forall i :: 0 <= i < |a| ==> (a + b)[i] == a[i];
  }

  lemma {:induction false} FencesConcat(a: string, b: string, inFence: bool)
    requires AtLineStart(a)
    ensures Fences(a + b, inFence) == Fences(b, Fences(a, inFence))
    decreases |a|
  {
    hide FenceAfter, IndexNewline;
    if a == "" {
      assert a + b == b;
    } else {
      var n := IndexNewline(a);
      assert a[|a| - 1] == '\n';
      FirstLine(a, b);
      FencesConcat(a[n + 1..], b, FenceAfter(inFence, a[..n]));
    }
  }

  lemma NoLines(inFence: bool)
    ensures Fences("", inFence) == inFence
  {
  }

  /** A text of one line. */
  lemma OneLine(line: string, inFence: bool)
    requires forall i :: 0 <= i < |line| ==> line[i] != '\n'
    ensures Fences(line + "\n", inFence) == FenceAfter(inFence, line)
  {
    hide FenceAfter, IndexNewline;
    var s := line + "\n";
    var n := IndexNewline(s);
    assert s[|line|] == '\n';
    assert forall i :: 0 <= i < |line| ==> s[i] == line[i];
    assert n == |line|;
    assert s[..n] == line && s[n + 1..] == "";
  }

  lemma {:induction false} BlankTrims(line: string)
    ensures Blank(line) <==> TrimSpace(line) == ""
  {
    BlankTrimsLeft(line);
    BlankTrimsRight(TrimLeft(line));
  }

  lemma {:induction false} BlankTrimsLeft(s: string)
    ensures Blank(s) <==> TrimLeft(s) == ""
    ensures TrimLeft(s) == "" || !IsSpace(TrimLeft(s)[0])
  {
    if s != "" && IsSpace(s[0]) {
      BlankTrimsLeft(s[1..]);
      assert forall i :: 0 < i < |s| ==> s[i] == s[1..][i - 1];
      assert Blank(s) <==> Blank(s[1..]);
    }
  }

  lemma {:induction false} BlankTrimsRight(s: string)
    requires s == "" || !IsSpace(s[0])
    ensures TrimRight(s) == "" <==> s == ""
  {
    if s != "" && IsSpace(s[|s| - 1]) {
      BlankTrimsRight(s[..|s| - 1]);
    }
  }

  /** A blank line leaves the fence as it was. */
  lemma BlankKeepsFence(inFence: bool, line: string)
    requires Blank(line)
    ensures FenceAfter(inFence, line) == inFence
  {
    BlankTrims(line);
  }

  // Splitting into rows.

  /** The lines of `s`, as split at each newline. */
  function Rows(s: string): (rows: seq<string>)
    ensures rows != []
  {
    if s == "" then [""]
    else
      var rows := Rows(s[..|s| - 1]);
      if s[|s| - 1] == '\n' then rows + [""]
      else rows[..|rows| - 1] + [rows[|rows| - 1] + [s[|s| - 1]]]
  }

  lemma NoRows()
    ensures Rows("") == [""]
  {
  }

  lemma RowGrows(s: string, c: char)
    requires c != '\n'
    ensures var rows := Rows(s);
            Rows(s + [c]) == rows[..|rows| - 1] + [rows[|rows| - 1] + [c]]
  {
    assert (s + [c])[..|s|] == s;
  }

  /** Appending text without newlines extends the last row. */
  lemma {:induction false} RowsExtend(s: string, t: string)
    requires '\n' !in t
    ensures var rows := Rows(s);
            Rows(s + t) == rows[..|rows| - 1] + [rows[|rows| - 1] + t]
    decreases |t|
  {
    hide Rows;
    var rows := Rows(s);
    var k := |rows| - 1;
    if t == "" {
      assert s + t == s && rows[k] + t == rows[k];
      assert rows == rows[..k] + [rows[k]];
    } else {
      var (init, last) := (t[..|t| - 1], t[|t| - 1]);
      RowsExtend(s, init);
      assert t == init + [last] && last != '\n';
      assert s + t == (s + init) + [last];
      RowGrows(s + init, last);
      var longer := rows[..k] + [rows[k] + init];
      assert longer[..k] == rows[..k];
      assert (rows[k] + init) + [last] == rows[k] + t;
    }
  }

  lemma RowsBreak(s: string)
    ensures Rows(s + "\n") == Rows(s) + [""]
  {
    assert (s + "\n")[..|s|] == s;
  }

  /** No row holds a newline, and every rune of a row is one of the text. */
  lemma {:induction false} RowsAreLines(s: string)
    ensures forall row :: row in Rows(s) ==> '\n' !in row
    ensures forall row, c :: row in Rows(s) && c in row ==> c in s
  {
    if s != "" {
      var (init, last) := (s[..|s| - 1], s[|s| - 1]);
      RowsAreLines(init);
      assert s == init + [last];
      var rows := Rows(init);
      assert rows[|rows| - 1] in rows;
    }
  }

  function Join(rows: seq<string>): string
    requires rows != []
  {
    if |rows| == 1 then rows[0] else Join(rows[..|rows| - 1]) + "\n" + rows[|rows| - 1]
  }

  /** Splitting loses nothing: the rows joined with newlines are the text. */
  lemma {:induction false} JoinRows(s: string)
    ensures Join(Rows(s)) == s
  {
    if s != "" {
      var (init, last) := (s[..|s| - 1], s[|s| - 1]);
      JoinRows(init);
      assert s == init + [last];
      var rows := Rows(init);
      if last == '\n' {
        assert Rows(s)[..|rows|] == rows;
        assert s == init + "\n" + "";
      } else {
        var k := |rows| - 1;
        assert Rows(s)[..k] == rows[..k];
        if k > 0 {
          assert Join(rows[..k]) + "\n" + (rows[k] + [last]) == (Join(rows[..k]) + "\n" + rows[k]) + [last];
        }
      }
    }
  }

  /** The rows of a concatenation: the last row of one and the first of the other become one. */
  lemma {:induction false} RowsConcat(s: string, t: string)
    ensures Rows(s + t) == Rows(s)[..|Rows(s)| - 1] + [Rows(s)[|Rows(s)| - 1] + Rows(t)[0]] + Rows(t)[1..]
    decreases |t|
  {
    hide Rows;
    var rows := Rows(s);
    var (early, last) := (rows[..|rows| - 1], rows[|rows| - 1]);
    if t == "" {
      NoRows();
      assert s + t == s && last + "" == last;
      assert rows == early + [last] + [];
    } else {
      var (init, c) := (t[..|t| - 1], t[|t| - 1]);
      assert t == init + [c] && s + t == (s + init) + [c];
      RowsConcat(s, init);
      var front := Rows(init);
      if c == '\n' {
        assert [c] == "\n";
        RowsBreak(init);
        RowsBreak(s + init);
        assert (front + [""])[1..] == front[1..] + [""];
        assert early + [last + front[0]] + front[1..] + [""] == early + [last + front[0]] + (front[1..] + [""]);
      } else {
        RowGrows(init, c);
        RowGrows(s + init, c);
        GrowTogether(early, last, front, c);
      }
    }
  }

  lemma GrowTogether(early: seq<string>, last: string, front: seq<string>, c: char)
    requires front != []
    ensures var all := early + [last + front[0]] + front[1..];
            var grown := front[..|front| - 1] + [front[|front| - 1] + [c]];
            all[..|all| - 1] + [all[|all| - 1] + [c]] == early + [last + grown[0]] + grown[1..]
  {
    if |front| == 1 {
      assert (last + front[0]) + [c] == last + (front[0] + [c]);
    }
  }
}
