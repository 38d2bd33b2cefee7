/** Dispatching the directives found in source files and removing each one that was carried out, from
  the bottom of a file upward. */
module Directives {
  import opened Sequences

  datatype Directive = Directive(path: string, line: nat)

  /** What the comment pattern says of a line: whether it holds a directive, whether it holds nothing
    else, and what is left of it without the directive. */
  datatype Syntax = Syntax(matches: string -> bool, whole: string -> bool, strip: string -> string)

  type Files = map<string, seq<string>>

  /** A file has at least one line, which may be empty. */
  ghost predicate Proper(files: Files) {
    forall p :: p in files ==> files[p] != []
  }

  /** The lines that are read back after `lines` were joined and written. */
  function Stored(lines: seq<string>): (r: seq<string>)
    ensures r != []
  {
    if lines == [] then [""] else lines
  }

  /** What becomes of a line whose directive is removed. */
  function Without(sx: Syntax, line: string): seq<string> {
    if sx.whole(line) then [] else [sx.strip(line)]
  }

  // Removing all of them at once.

  /** The lines `i..` of a file without the directives in `removed`, each taken out where it stood. */
  function WithoutFrom(sx: Syntax, p: string, lines: seq<string>, removed: set<Directive>, i: nat): seq<string>
    requires i <= |lines|
    decreases |lines| - i
  {
    if i == |lines| then []
    else
      (if Directive(p, i + 1) in removed then Without(sx, lines[i]) else [lines[i]])
      + WithoutFrom(sx, p, lines, removed, i + 1)
  }

  function AllAtOnce(sx: Syntax, files: Files, removed: set<Directive>): Files {
    map p | p in files :: Stored(WithoutFrom(sx, p, files[p], removed, 0))
  }

  // Removing them one by one.

  predicate InRange(files: Files, d: Directive) {
    d.path in files && 1 <= d.line <= |files[d.path]|
  }

  function RemoveOne(sx: Syntax, files: Files, d: Directive): Files
    requires InRange(files, d)
  {
    var lines := files[d.path];
    files[d.path := Stored(lines[..d.line - 1] + Without(sx, lines[d.line - 1]) + lines[d.line..])]
  }

  /** The files after the directives were handled in this order, and how many were removed.  `ok` says
    which ones are dispatched and then written without an error. */
  function Process(sx: Syntax, ok: Directive -> bool, files: Files, order: seq<Directive>): (Files, nat)
    decreases |order|
  {
    if order == [] then (files, 0)
    else if ok(order[0]) && InRange(files, order[0]) then
      var (after, n) := Process(sx, ok, RemoveOne(sx, files, order[0]), order[1..]);
      (after, n + 1)
    else
      Process(sx, ok, files, order[1..])
  }

  /** The directives of one file come from the bottom up, each once. */
  ghost predicate BottomUp(order: seq<Directive>) {
    forall i, j :: 0 <= i < j < |order| && order[i].path == order[j].path ==> order[i].line > order[j].line
  }

  function Succeeding(ok: Directive -> bool, order: seq<Directive>): set<Directive> {
    set d | d in order && ok(d)
  }

  lemma {:induction false} Untouched(sx: Syntax, p: string, lines: seq<string>, removed: set<Directive>, i: nat)
    requires i <= |lines| && forall d :: d in removed && d.path == p ==> d.line <= i
    ensures WithoutFrom(sx, p, lines, removed, i) == lines[i..]
    decreases |lines| - i
  {
    if i < |lines| {
      Untouched(sx, p, lines, removed, i + 1);
      assert lines[i..] == [lines[i]] + lines[i + 1..];
    }
  }

  /** Above the topmost removal a file is as it was. */
  lemma {:induction false} AboveUntouched(sx: Syntax, p: string, lines: seq<string>, removed: set<Directive>,
                                          i: nat, n: nat)
    requires i <= n <= |lines| && forall d :: d in removed && d.path == p ==> d.line > n
    ensures WithoutFrom(sx, p, lines, removed, i) == lines[i..n] + WithoutFrom(sx, p, lines, removed, n)
    decreases n - i
  {
    if i == n {
      assert lines[i..n] == [];
    } else {
      AboveUntouched(sx, p, lines, removed, i + 1, n);
      assert Directive(p, i + 1) !in removed;
      assert lines[i..n] == [lines[i]] + lines[i + 1..n];
    }
  }

  /** What follows line `i` does not depend on the removals up to it. */
  lemma {:induction false} BelowSame(sx: Syntax, p: string, lines: seq<string>, a: set<Directive>,
                                     b: set<Directive>, i: nat)
    requires i <= |lines| && forall n: nat :: n > i ==> (Directive(p, n) in a <==> Directive(p, n) in b)
    ensures WithoutFrom(sx, p, lines, a, i) == WithoutFrom(sx, p, lines, b, i)
    decreases |lines| - i
  {
    if i < |lines| {
      BelowSame(sx, p, lines, a, b, i + 1);
    }
  }

  /** Removing a directive above those already removed adds it to them. */
  lemma RemoveAbove(sx: Syntax, orig: Files, done: set<Directive>, d: Directive)
    requires InRange(orig, d) && Proper(orig)
    requires forall e :: e in done && e.path == d.path ==> e.line > d.line
    ensures InRange(AllAtOnce(sx, orig, done), d)
    ensures RemoveOne(sx, AllAtOnce(sx, orig, done), d) == AllAtOnce(sx, orig, done + {d})
  {
    hide WithoutFrom, Without;
    var (p, n, lines) := (d.path, d.line, orig[d.path]);
    var now := AllAtOnce(sx, orig, done);
    var below := WithoutFrom(sx, p, lines, done, n);
    AboveUntouched(sx, p, lines, done, 0, n);
    assert lines[0..n] == lines[..n];
    assert now[p] == lines[..n] + below;
    assert now[p][..n - 1] == lines[..n - 1] && now[p][n - 1] == lines[n - 1] && now[p][n..] == below;
    EditedFile(sx, lines, done, d);
    forall q | q in orig && q != p
      ensures AllAtOnce(sx, orig, done)[q] == AllAtOnce(sx, orig, done + {d})[q]
    {
      BelowSame(sx, q, orig[q], done, done + {d}, 0);
    }
  }

  lemma EditedFile(sx: Syntax, lines: seq<string>, done: set<Directive>, d: Directive)
    requires 1 <= d.line <= |lines|
    requires forall e :: e in done && e.path == d.path ==> e.line > d.line
    ensures WithoutFrom(sx, d.path, lines, done + {d}, 0)
         == lines[..d.line - 1] + Without(sx, lines[d.line - 1]) + WithoutFrom(sx, d.path, lines, done, d.line)
  {
    hide Without;
    var (p, n) := (d.path, d.line);
    AboveUntouched(sx, p, lines, done + {d}, 0, n - 1);
    assert lines[0..n - 1] == lines[..n - 1];
    BelowSame(sx, p, lines, done, done + {d}, n);
    assert Directive(p, n) == d;
  }

  ghost predicate AllInRange(files: Files, order: seq<Directive>) {
    forall d :: d in order ==> InRange(files, d)
  }

  /** What was removed lies below what is still to be handled. */
  ghost predicate Below(done: set<Directive>, order: seq<Directive>) {
    forall d, e :: d in order && e in done && e.path == d.path ==> e.line > d.line
  }

  lemma RestBelow(order: seq<Directive>)
    requires order != [] && BottomUp(order)
    ensures var (d, rest) := (order[0], order[1..]);
            && BottomUp(rest)
            && (forall e :: e in order <==> e == d || e in rest)
            && (forall e :: e in rest && e.path == d.path ==> e.line < d.line)
  {
    var (d, rest) := (order[0], order[1..]);
    assert forall i :: 0 <= i < |rest| ==> rest[i] == order[i + 1];
    assert order == [d] + rest;
  }

  lemma FirstOf(ok: Directive -> bool, files: Files, done: set<Directive>, order: seq<Directive>)
    requires order != [] && BottomUp(order) && AllInRange(files, order) && Below(done, order)
    ensures var (d, rest) := (order[0], order[1..]);
            && BottomUp(rest) && AllInRange(files, rest) && Below(done, rest) && Below(done + {d}, rest)
            && InRange(files, d) && (forall e :: e in done && e.path == d.path ==> e.line > d.line)
            && Succeeding(ok, order) == (if ok(d) then {d} else {}) + Succeeding(ok, rest)
            && d !in Succeeding(ok, rest)
  {
    RestBelow(order);
    hide BottomUp, InRange;
  }

  lemma {:induction false} ProcessFrom(sx: Syntax, ok: Directive -> bool, orig: Files, done: set<Directive>,
                                       order: seq<Directive>)
    requires Proper(orig) && BottomUp(order) && AllInRange(orig, order) && Below(done, order)
    ensures var (after, n) := Process(sx, ok, AllAtOnce(sx, orig, done), order);
            && after == AllAtOnce(sx, orig, done + Succeeding(ok, order))
            && n == |Succeeding(ok, order)|
    decreases |order|
  {
    hide AllAtOnce, RemoveOne, Succeeding, BottomUp, Proper, InRange, AllInRange, Below;
    if order == [] {
      NoneSucceed(ok);
      assert done + {} == done;
    } else {
      var (d, rest) := (order[0], order[1..]);
      FirstOf(ok, orig, done, order);
      ProcessFirst(sx, ok, AllAtOnce(sx, orig, done), order);
      RemoveAbove(sx, orig, done, d);
      var more := Succeeding(ok, rest);
      hide Process;
      if ok(d) {
        var now := done + {d};
        ProcessFrom(sx, ok, orig, now, rest);
        OneMore(done, d, more);
      } else {
        ProcessFrom(sx, ok, orig, done, rest);
        assert {} + more == more;
      }
    }
  }

  lemma OneMore(done: set<Directive>, d: Directive, more: set<Directive>)
    requires d !in more
    ensures (done + {d}) + more == done + ({d} + more)
    ensures |{d} + more| == |more| + 1
  {
    assert ({d} + more) - {d} == more;
  }

  lemma ProcessFirst(sx: Syntax, ok: Directive -> bool, files: Files, order: seq<Directive>)
    requires order != []
    ensures Process(sx, ok, files, order) ==
            if ok(order[0]) && InRange(files, order[0]) then
              var (after, n) := Process(sx, ok, RemoveOne(sx, files, order[0]), order[1..]);
              (after, n + 1)
            else Process(sx, ok, files, order[1..])
  {
    hide RemoveOne;
  }

  lemma NoneSucceed(ok: Directive -> bool)
    ensures Succeeding(ok, []) == {}
  {
  }

  lemma NothingRemoved(sx: Syntax, files: Files)
    requires Proper(files)
    ensures AllAtOnce(sx, files, {}) == files
  {
    hide WithoutFrom;
    forall p | p in files
      ensures Stored(WithoutFrom(sx, p, files[p], {}, 0)) == files[p]
    {
      Untouched(sx, p, files[p], {}, 0);
    }
  }

  /** Handling the directives from the bottom up gives what removing the successful ones all at once
    gives: no removal shifts a line that is still to be handled, none is out of range, and the count
    is the number of successes. */
  lemma BottomUpIsAllAtOnce(sx: Syntax, ok: Directive -> bool, files: Files, order: seq<Directive>)
    requires Proper(files) && BottomUp(order) && AllInRange(files, order)
    ensures Process(sx, ok, files, order) == (AllAtOnce(sx, files, Succeeding(ok, order)), |Succeeding(ok, order)|)
  {
    hide AllAtOnce, Process;
    NothingRemoved(sx, files);
    ProcessFrom(sx, ok, files, {}, order);
    assert {} + Succeeding(ok, order) == Succeeding(ok, order);
  }

  /** From the top down, the removal of the first of two directives pushes the second out of range. */
  lemma TopDownLosesOne(sx: Syntax, p: string, a: string, b: string)
    requires sx.whole(a) && sx.whole(b)
    ensures var order := [Directive(p, 1), Directive(p, 2)];
            && Process(sx, _ => true, map[p := [a, b]], order) == (map[p := [b]], 1)
            && AllAtOnce(sx, map[p := [a, b]], Succeeding(_ => true, order))[p] == [""]
  {
    var (files, d, e) := (map[p := [a, b]], Directive(p, 1), Directive(p, 2));
    assert RemoveOne(sx, files, d)[p] == [b];
    var left := map[p := [b]];
    assert RemoveOne(sx, files, d) == left;
    assert [d, e][1..] == [e] && [e][1..] == [];
    assert Process(sx, _ => true, left, []) == (left, 0);
    assert !InRange(left, e);
    assert Process(sx, _ => true, left, [e]) == (left, 0);
    var gone := Succeeding(_ => true, [d, e]);
    assert d in [d, e] && e in [d, e];
    assert WithoutFrom(sx, p, [a, b], gone, 2) == [];
    assert WithoutFrom(sx, p, [a, b], gone, 1) == [];
  }

  // What remains of a file.

  /** The directives of `removed` that take up a whole line of the lines `i..j`. */
  ghost function WholeLines(sx: Syntax, p: string, lines: seq<string>, removed: set<Directive>, i: nat,
                            j: nat): set<nat>
    requires j <= |lines|
  {
    set k: nat | i <= k < j && Directive(p, k + 1) in removed && sx.whole(lines[k])
  }

  /** `after` is the file `before` once `removed` are gone: it is shorter by the lines that held nothing
    else, with one empty line standing for none; every other line is there, as far above its old place
    as lines went before it, as it was or, if it held a directive, with that stripped. */
  ghost predicate Remains(sx: Syntax, p: string, removed: set<Directive>, before: seq<string>, after: seq<string>) {
    var lost := |WholeLines(sx, p, before, removed, 0, |before|)|;
    && lost <= |before|
    && (if lost == |before| then after == [""] else |after| == |before| - lost)
    && forall i: nat :: i < |before| && i !in WholeLines(sx, p, before, removed, 0, |before|) ==>
         var up := |WholeLines(sx, p, before, removed, 0, i)|;
         && 0 <= i - up < |after|
         && after[i - up] == if Directive(p, i + 1) in removed then sx.strip(before[i]) else before[i]
  }

  lemma WholeFirst(sx: Syntax, p: string, lines: seq<string>, removed: set<Directive>, i: nat, j: nat)
    requires i < j <= |lines|
    ensures var (all, rest) := (WholeLines(sx, p, lines, removed, i, j), WholeLines(sx, p, lines, removed, i + 1, j));
            && (i in all <==> Directive(p, i + 1) in removed && sx.whole(lines[i]))
            && |all| == |rest| + (if i in all then 1 else 0)
            && forall k :: k != i ==> (k in all <==> k in rest)
  {
    WholeMembers(sx, p, lines, removed, i, j);
    hide WholeLines;
    var (all, rest) := (WholeLines(sx, p, lines, removed, i, j), WholeLines(sx, p, lines, removed, i + 1, j));
    if i in all {
      assert all == rest + {i};
    } else {
      assert all == rest;
    }
  }

  lemma WholeMembers(sx: Syntax, p: string, lines: seq<string>, removed: set<Directive>, i: nat, j: nat)
    requires i < j <= |lines|
    ensures i !in WholeLines(sx, p, lines, removed, i + 1, j)
    ensures i in WholeLines(sx, p, lines, removed, i, j) <==> Directive(p, i + 1) in removed && sx.whole(lines[i])
    ensures forall k :: k in WholeLines(sx, p, lines, removed, i, j) <==>
              || k in WholeLines(sx, p, lines, removed, i + 1, j)
              || (k == i && k in WholeLines(sx, p, lines, removed, i, j))
  {
  }

  lemma {:induction false} WholeAtMost(sx: Syntax, p: string, lines: seq<string>, removed: set<Directive>, i: nat,
                                       j: nat)
    requires i <= j <= |lines|
    ensures |WholeLines(sx, p, lines, removed, i, j)| <= j - i
    decreases j - i
  {
    hide WholeLines;
    if i == j {
      NoWholeLines(sx, p, lines, removed, i);
    } else {
      WholeFirst(sx, p, lines, removed, i, j);
      WholeAtMost(sx, p, lines, removed, i + 1, j);
    }
  }

  lemma {:induction false} WithoutRemains(sx: Syntax, p: string, lines: seq<string>, removed: set<Directive>, i: nat)
    requires i <= |lines|
    ensures var after := WithoutFrom(sx, p, lines, removed, i);
            var whole := WholeLines(sx, p, lines, removed, i, |lines|);
            && |after| == |lines| - i - |whole|
            && forall j: nat :: i <= j < |lines| && j !in whole ==>
                 var up := |WholeLines(sx, p, lines, removed, i, j)|;
                 && 0 <= j - i - up < |after|
                 && after[j - i - up] == if Directive(p, j + 1) in removed then sx.strip(lines[j]) else lines[j]
    decreases |lines| - i
  {
    hide WholeLines;
    var (after, whole) := (WithoutFrom(sx, p, lines, removed, i), WholeLines(sx, p, lines, removed, i, |lines|));
    NoWholeLines(sx, p, lines, removed, i);
    if i == |lines| {
      NoWholeLines(sx, p, lines, removed, |lines|);
    } else {
      var rest := WithoutFrom(sx, p, lines, removed, i + 1);
      WithoutRemains(sx, p, lines, removed, i + 1);
      WholeFirst(sx, p, lines, removed, i, |lines|);
      forall j: nat | i <= j < |lines| && j !in whole
        ensures var up := |WholeLines(sx, p, lines, removed, i, j)|;
                && 0 <= j - i - up < |after|
                && after[j - i - up] == if Directive(p, j + 1) in removed then sx.strip(lines[j]) else lines[j]
      {
        if j > i {
          WholeFirst(sx, p, lines, removed, i, j);
          WholeAtMost(sx, p, lines, removed, i + 1, j);
        }
      }
    }
  }

  lemma NoWholeLines(sx: Syntax, p: string, lines: seq<string>, removed: set<Directive>, i: nat)
    requires i <= |lines|
    ensures WholeLines(sx, p, lines, removed, i, i) == {}
  {
  }

  /** In every file only those directives are gone. */
  ghost predicate OnlyGone(sx: Syntax, removed: set<Directive>, before: Files, after: Files) {
    after.Keys == before.Keys && forall p :: p in before ==> Remains(sx, p, removed, before[p], after[p])
  }

  /** With no whole line among them, each line stays at its number. */
  lemma StrippedInPlace(sx: Syntax, p: string, removed: set<Directive>, before: seq<string>, after: seq<string>)
    requires Remains(sx, p, removed, before, after) && before != []
    requires forall i :: 0 <= i < |before| && Directive(p, i + 1) in removed ==> !sx.whole(before[i])
    ensures |after| == |before|
    ensures forall i :: 0 <= i < |before| ==>
              after[i] == if Directive(p, i + 1) in removed then sx.strip(before[i]) else before[i]
  {
    assert forall j: nat :: j <= |before| ==> WholeLines(sx, p, before, removed, 0, j) == {};
  }

  lemma AllAtOnceRemains(sx: Syntax, files: Files, removed: set<Directive>)
    requires Proper(files)
    ensures OnlyGone(sx, removed, files, AllAtOnce(sx, files, removed))
  {
    hide WholeLines, Without, WithoutFrom;
    forall p | p in files
      ensures Remains(sx, p, removed, files[p], AllAtOnce(sx, files, removed)[p])
    {
      WithoutRemains(sx, p, files[p], removed, 0);
    }
  }

  // Dispatches that edit the files.

  /** What carrying out a directive does to the files. */
  type Edit = (Directive, Files) -> Files

  /** The same with a dispatch that edits the files first, whether it succeeds or not. */
  function ProcessEdited(sx: Syntax, edit: Edit, ok: Directive -> bool, files: Files,
                         order: seq<Directive>): (Files, nat)
    decreases |order|
  {
    if order == [] then (files, 0)
    else
      var (d, edited) := (order[0], edit(order[0], files));
      if ok(d) && InRange(edited, d) then
        var (after, n) := ProcessEdited(sx, edit, ok, RemoveOne(sx, edited, d), order[1..]);
        (after, n + 1)
      else ProcessEdited(sx, edit, ok, edited, order[1..])
  }

  ghost predicate LeavesAlone(edit: Edit) {
    forall d, files :: edit(d, files) == files
  }

  lemma {:induction false} WithoutEdits(sx: Syntax, edit: Edit, ok: Directive -> bool, files: Files,
                                        order: seq<Directive>)
    requires LeavesAlone(edit)
    ensures ProcessEdited(sx, edit, ok, files, order) == Process(sx, ok, files, order)
    decreases |order|
  {
    hide RemoveOne, InRange;
    if order != [] {
      assert edit(order[0], files) == files;
      if InRange(files, order[0]) {
        WithoutEdits(sx, edit, ok, RemoveOne(sx, files, order[0]), order[1..]);
      }
      WithoutEdits(sx, edit, ok, files, order[1..]);
    }
  }

  /** For dispatches that leave the files alone: handling the directives from the bottom up takes out of
    each file precisely the directives that succeeded. */
  lemma OnlyDirectivesGo(sx: Syntax, edit: Edit, ok: Directive -> bool, files: Files, order: seq<Directive>)
    requires Proper(files) && BottomUp(order) && AllInRange(files, order) && LeavesAlone(edit)
    ensures OnlyGone(sx, (set d | d in order && ok(d)), files, ProcessEdited(sx, edit, ok, files, order).0)
  {
    WithoutEdits(sx, edit, ok, files, order);
    BottomUpIsAllAtOnce(sx, ok, files, order);
    AllAtOnceRemains(sx, files, Succeeding(ok, order));
  }

  /** The line of `d` is the one that the scan found. */
  predicate StillThere(scanned: Files, files: Files, d: Directive) {
    InRange(scanned, d) && InRange(files, d) && files[d.path][d.line - 1] == scanned[d.path][d.line - 1]
  }

  /** How often the line `text` stands in the file of `d`. */
  function Count(files: Files, p: string, text: string): nat
    requires p in files
  {
    multiset(files[p])[text]
  }

  /** A removal takes one line of the text that the scan found out of the file if and only if that line
    is still where it was found; otherwise another line is taken out or stripped.  (The pattern matches
    the text, and nothing that is left of a line.) */
  lemma RemovalTakesOut(sx: Syntax, scanned: Files, files: Files, d: Directive)
    requires InRange(scanned, d) && InRange(files, d)
    requires sx.matches(scanned[d.path][d.line - 1])
    requires !sx.matches("") && forall line :: !sx.matches(sx.strip(line))
    ensures var text := scanned[d.path][d.line - 1];
            var (before, after) := (Count(files, d.path, text), Count(RemoveOne(sx, files, d), d.path, text));
            && (before == after + 1 <==> StillThere(scanned, files, d))
            && (before == after <==> !StillThere(scanned, files, d))
  {
    var (text, lines, n) := (scanned[d.path][d.line - 1], files[d.path], d.line);
    var (above, line, below) := (lines[..n - 1], lines[n - 1], lines[n..]);
    var left := Without(sx, line);
    assert text !in left && text != "";
    hide Without;
    assert lines == above + [line] + below;
    var after := above + left + below;
    assert RemoveOne(sx, files, d)[d.path] == Stored(after);
    CountParts(text, above, [line], below);
    CountParts(text, above, left, below);
    assert multiset(left)[text] == 0 && multiset([line])[text] == if line == text then 1 else 0;
    StoredCount(text, after);
  }

  lemma CountParts(x: string, a: seq<string>, b: seq<string>, c: seq<string>)
    ensures multiset(a + b + c)[x] == multiset(a)[x] + multiset(b)[x] + multiset(c)[x]
  {
  }

  lemma StoredCount(x: string, lines: seq<string>)
    requires x != ""
    ensures multiset(Stored(lines))[x] == multiset(lines)[x]
  {
  }

  /** Every directive that was removed was still on its line. */
  ghost predicate AllStillThere(sx: Syntax, edit: Edit, ok: Directive -> bool, scanned: Files, files: Files,
                                order: seq<Directive>)
    decreases |order|
  {
    order == [] ||
    var (d, edited) := (order[0], edit(order[0], files));
    if ok(d) && InRange(edited, d) then
      StillThere(scanned, edited, d) && AllStillThere(sx, edit, ok, scanned, RemoveOne(sx, edited, d), order[1..])
    else AllStillThere(sx, edit, ok, scanned, edited, order[1..])
  }

  /** The files agree down to the line of `d`. */
  predicate SameDownTo(a: Files, b: Files, d: Directive) {
    InRange(a, d) && InRange(b, d) && a[d.path][..d.line] == b[d.path][..d.line]
  }

  /** An edit made for one directive keeps the lines down to it, and down to each one still to come. */
  ghost predicate EditsBelow(edit: Edit, order: seq<Directive>) {
    forall i, j, files :: 0 <= i <= j < |order| && InRange(files, order[j]) ==>
      SameDownTo(files, edit(order[i], files), order[j])
  }

  lemma EditsBelowRest(edit: Edit, order: seq<Directive>)
    requires order != [] && EditsBelow(edit, order)
    ensures EditsBelow(edit, order[1..])
    ensures forall e, files :: e in order && InRange(files, e) ==> SameDownTo(files, edit(order[0], files), e)
  {
    hide SameDownTo, InRange;
    var rest := order[1..];
    forall i, j, files | 0 <= i <= j < |rest| && InRange(files, rest[j])
      ensures SameDownTo(files, edit(rest[i], files), rest[j])
    {
      assert rest[i] == order[i + 1] && rest[j] == order[j + 1];
    }
  }

  lemma StillThereFromSame(scanned: Files, files: Files, d: Directive)
    requires SameDownTo(scanned, files, d)
    ensures StillThere(scanned, files, d)
  {
    assert files[d.path][..d.line][d.line - 1] == files[d.path][d.line - 1];
    assert scanned[d.path][..d.line][d.line - 1] == scanned[d.path][d.line - 1];
  }

  /** A removal keeps the lines down to a directive above it. */
  lemma RemovalKeepsAbove(sx: Syntax, scanned: Files, files: Files, d: Directive, e: Directive)
    requires InRange(files, d) && SameDownTo(scanned, files, e) && (e.path == d.path ==> e.line < d.line)
    ensures SameDownTo(scanned, RemoveOne(sx, files, d), e)
  {
    hide Without;
    if e.path == d.path {
      var lines := files[d.path];
      var after := RemoveOne(sx, files, d)[d.path];
      assert after[..d.line - 1] == lines[..d.line - 1];
      assert after[..e.line] == lines[..d.line - 1][..e.line] == lines[..e.line];
    }
  }

  /** If dispatches edit below the directives only, every removal takes out its own directive, none is
    out of range, and the count is the number of successes. */
  lemma {:induction false} EditsBelowAreSafe(sx: Syntax, edit: Edit, ok: Directive -> bool,
                                             scanned: Files, files: Files, order: seq<Directive>)
    requires BottomUp(order) && EditsBelow(edit, order)
    requires forall d :: d in order ==> SameDownTo(scanned, files, d)
    ensures AllStillThere(sx, edit, ok, scanned, files, order)
    ensures ProcessEdited(sx, edit, ok, files, order).1 == |Succeeding(ok, order)|
    decreases |order|
  {
    if order == [] {
      NoneSucceed(ok);
    } else {
      var (d, rest) := (order[0], order[1..]);
      var edited := edit(d, files);
      RestBelow(order);
      EditsBelowRest(edit, order);
      forall e | e in order
        ensures SameDownTo(scanned, edited, e)
      {
        assert SameDownTo(scanned, files, e) && SameDownTo(files, edited, e);
      }
      StillThereFromSame(scanned, edited, d);
      SucceedingFirst(ok, order);
      hide SameDownTo, BottomUp, EditsBelow, Succeeding, RemoveOne;
      if ok(d) {
        forall e | e in rest
          ensures SameDownTo(scanned, RemoveOne(sx, edited, d), e)
        {
          RemovalKeepsAbove(sx, scanned, edited, d, e);
        }
        EditsBelowAreSafe(sx, edit, ok, scanned, RemoveOne(sx, edited, d), rest);
      } else {
        EditsBelowAreSafe(sx, edit, ok, scanned, edited, rest);
      }
    }
  }

  lemma SucceedingSplit(ok: Directive -> bool, d: Directive, rest: seq<Directive>)
    ensures Succeeding(ok, [d] + rest) == (if ok(d) then {d} else {}) + Succeeding(ok, rest)
  {
  }

  lemma FirstNotAgain(order: seq<Directive>)
    requires order != [] && BottomUp(order)
    ensures order[0] !in order[1..] && order == [order[0]] + order[1..]
  {
    forall i | 0 <= i < |order[1..]|
      ensures order[1..][i] != order[0]
    {
      assert order[1..][i] == order[i + 1];
    }
  }

  lemma SucceedingFirst(ok: Directive -> bool, order: seq<Directive>)
    requires order != [] && BottomUp(order)
    ensures |Succeeding(ok, order)| == (if ok(order[0]) then 1 else 0) + |Succeeding(ok, order[1..])|
  {
    FirstNotAgain(order);
    hide BottomUp;
    var (d, more) := (order[0], Succeeding(ok, order[1..]));
    assert d !in more;
    hide Succeeding;
    SucceedingSplit(ok, d, order[1..]);
    OneMore({}, d, more);
    assert {} + more == more;
  }

  /** An edit above its directive is not safe: with a line inserted at the top of the file, that line is
    taken out in place of the directive, and the directive counts as removed all the same. */
  lemma InsertionAboveMisses(sx: Syntax, p: string, text: string, line: string)
    requires sx.whole(line) && text != line
    ensures var (files, d) := (map[p := [text]], Directive(p, 1));
            var edit: Edit := (e, fs) => if p in fs then fs[p := [line] + fs[p]] else fs;
            && ProcessEdited(sx, edit, _ => true, files, [d]) == (files, 1)
            && !AllStillThere(sx, edit, _ => true, files, files, [d])
  {
    var (files, d) := (map[p := [text]], Directive(p, 1));
    var edit: Edit := (e, fs) => if p in fs then fs[p := [line] + fs[p]] else fs;
    var edited := edit(d, files);
    assert edited[p] == [line, text];
    assert RemoveOne(sx, edited, d)[p] == [text];
    assert RemoveOne(sx, edited, d) == files;
    assert [d][1..] == [];
    assert ProcessEdited(sx, edit, _ => true, files, []) == (files, 0);
  }

  // Sorting.

  /** The order of strings. */
  predicate PathLess(a: string, b: string) {
    b != "" && (a == "" || a[0] < b[0] || (a[0] == b[0] && PathLess(a[1..], b[1..])))
  }

  lemma {:induction false} PathOrder(a: string, b: string)
    ensures PathLess(a, b) ==> a != b
    ensures a != b ==> PathLess(a, b) || PathLess(b, a)
  {
    if a != "" && b != "" && a[0] == b[0] {
      PathOrder(a[1..], b[1..]);
      assert a == [a[0]] + a[1..] && b == [b[0]] + b[1..];
    }
  }

  lemma {:induction false} PathTransitive(a: string, b: string, c: string)
    requires PathLess(a, b) && PathLess(b, c)
    ensures PathLess(a, c)
  {
    if a != "" && a[0] == b[0] == c[0] {
      PathTransitive(a[1..], b[1..], c[1..]);
    }
  }

  predicate Before(a: Directive, b: Directive) {
    if a.path != b.path then PathLess(a.path, b.path) else a.line > b.line
  }

  ghost predicate Ordered(ds: seq<Directive>) {
    forall i, j :: 0 <= i < j < |ds| ==> Before(ds[i], ds[j]) || ds[i] == ds[j]
  }

  function Insert(d: Directive, ds: seq<Directive>): seq<Directive> {
    if ds == [] || Before(d, ds[0]) then [d] + ds else [ds[0]] + Insert(d, ds[1..])
  }

  /** The stable sort by path and descending line. */
  function Sort(ds: seq<Directive>): seq<Directive> {
    if ds == [] then [] else Insert(ds[0], Sort(ds[1..]))
  }

  lemma BeforeTransitive(a: Directive, b: Directive, c: Directive)
    requires Before(a, b) && Before(b, c)
    ensures Before(a, c)
  {
    if a.path != b.path && b.path != c.path {
      PathTransitive(a.path, b.path, c.path);
      PathOrder(a.path, c.path);
      PathOrder(b.path, c.path);
    }
  }

  ghost predicate BeforeAll(d: Directive, ds: seq<Directive>) {
    forall e :: e in ds ==> Before(d, e) || d == e
  }

  lemma OrderedCons(d: Directive, ds: seq<Directive>)
    ensures Ordered([d] + ds) <==> Ordered(ds) && BeforeAll(d, ds)
  {
    hide Before;
    var all := [d] + ds;
    if Ordered(all) {
      forall i, j | 0 <= i < j < |ds|
        ensures Before(ds[i], ds[j]) || ds[i] == ds[j]
      {
        assert all[i + 1] == ds[i] && all[j + 1] == ds[j];
      }
      forall e | e in ds
        ensures Before(d, e) || d == e
      {
        var k :| 0 <= k < |ds| && ds[k] == e;
        assert all[0] == d && all[k + 1] == e;
      }
    }
  }

  lemma BeforeAllTransitive(d: Directive, e: Directive, ds: seq<Directive>)
    requires Before(d, e) && BeforeAll(e, ds)
    ensures BeforeAll(d, [e] + ds)
  {
    hide Before;
    forall x | x in [e] + ds
      ensures Before(d, x)
    {
      if x != e {
        assert x in ds;
        BeforeTransitive(d, e, x);
      }
    }
  }

  lemma {:induction false} InsertMultiset(d: Directive, ds: seq<Directive>)
    ensures multiset(Insert(d, ds)) == multiset(ds) + multiset{d}
  {
    hide Before;
    if ds != [] {
      InsertMultiset(d, ds[1..]);
      assert ds == [ds[0]] + ds[1..];
    }
  }

  lemma {:induction false} InsertOrders(d: Directive, ds: seq<Directive>)
    requires Ordered(ds)
    ensures Ordered(Insert(d, ds))
  {
    hide Before, Ordered;
    if ds == [] {
      NoneOrdered(d);
    } else {
      var (e, rest) := (ds[0], ds[1..]);
      assert ds == [e] + rest;
      OrderedCons(e, rest);
      if Before(d, e) {
        BeforeAllTransitive(d, e, rest);
        OrderedCons(d, ds);
      } else {
        InsertOrders(d, rest);
        BeforeTotal(d, e);
        InsertMultiset(d, rest);
        assert forall x :: x in Insert(d, rest) ==> x in multiset(Insert(d, rest));
        assert BeforeAll(e, Insert(d, rest));
        OrderedCons(e, Insert(d, rest));
      }
    }
  }

  lemma NoneOrdered(d: Directive)
    ensures Ordered(Insert(d, []))
  {
  }

  lemma BeforeTotal(a: Directive, b: Directive)
    ensures Before(a, b) || Before(b, a) || a == b
  {
    PathOrder(a.path, b.path);
  }

  lemma {:induction false} SortOrders(ds: seq<Directive>)
    ensures Ordered(Sort(ds)) && multiset(Sort(ds)) == multiset(ds)
  {
    if ds != [] {
      SortOrders(ds[1..]);
      InsertOrders(ds[0], Sort(ds[1..]));
      InsertMultiset(ds[0], Sort(ds[1..]));
      assert ds == [ds[0]] + ds[1..];
    }
  }

  // Scanning.

  function FoundFrom(sx: Syntax, p: string, lines: seq<string>, i: nat): (ds: seq<Directive>)
    requires i <= |lines|
    decreases |lines| - i
  {
    if i == |lines| then []
    else (if sx.matches(lines[i]) then [Directive(p, i + 1)] else []) + FoundFrom(sx, p, lines, i + 1)
  }

  /** The directives of the files of a walk, in the order of the walk and of the lines. */
  function Found(sx: Syntax, files: Files, walk: seq<string>): seq<Directive>
    requires forall p :: p in walk ==> p in files
  {
    if walk == [] then [] else FoundFrom(sx, walk[0], files[walk[0]], 0) + Found(sx, files, walk[1..])
  }

  lemma {:induction false} FoundFromWhat(sx: Syntax, p: string, lines: seq<string>, i: nat)
    requires i <= |lines|
    ensures var ds := FoundFrom(sx, p, lines, i);
            && Distinct(ds)
            && forall d :: d in ds <==> d.path == p && i < d.line <= |lines| && sx.matches(lines[d.line - 1])
    decreases |lines| - i
  {
    if i < |lines| {
      FoundFromWhat(sx, p, lines, i + 1);
    }
  }

  /** The scan finds every line of the walked files that holds a directive, once. */
  lemma {:induction false} FoundWhat(sx: Syntax, files: Files, walk: seq<string>)
    requires Distinct(walk) && forall p :: p in walk ==> p in files
    ensures var ds := Found(sx, files, walk);
            && Distinct(ds)
            && forall d :: d in ds <==> d.path in walk && InRange(files, d) && sx.matches(files[d.path][d.line - 1])
  {
    hide FoundFrom;
    if walk != [] {
      var rest := walk[1..];
      assert walk == [walk[0]] + rest;
      FoundFromWhat(sx, walk[0], files[walk[0]], 0);
      FoundWhat(sx, files, rest);
      assert walk[0] !in rest;
      DistinctConcat(FoundFrom(sx, walk[0], files[walk[0]], 0), Found(sx, files, rest));
    }
  }

  /** The sort of distinct directives runs through each file from the bottom up. */
  lemma SortedBottomUp(ok: Directive -> bool, ds: seq<Directive>)
    requires Distinct(ds)
    ensures BottomUp(Sort(ds)) && (forall d :: d in Sort(ds) <==> d in ds)
    ensures Succeeding(ok, Sort(ds)) == Succeeding(ok, ds)
  {
    var sorted := Sort(ds);
    SortOrders(ds);
    DistinctCounts(ds);
    CountsDistinct(sorted);
    forall d
      ensures d in sorted <==> d in ds
    {
      assert d in multiset(sorted) <==> d in multiset(ds);
    }
  }

  /** The source files, the comment pattern, what a dispatch does to the files, and which directives are
    dispatched and which rewritten files are written without an error. */
  class Workspace {
    const sx: Syntax
    const edit: Edit
    const dispatched: Directive -> bool
    const written: Directive -> bool
    var files: Files

    constructor (sx: Syntax, edit: Edit, dispatched: Directive -> bool, written: Directive -> bool, files: Files)
      ensures this.sx == sx && this.edit == edit && this.dispatched == dispatched && this.written == written
      ensures this.files == files
    {
      this.sx, this.edit, this.dispatched, this.written, this.files := sx, edit, dispatched, written, files;
    }

    ghost function Succeeds(): Directive -> bool {
      d => dispatched(d) && written(d)
    }

    method ScanForAIComments(walk: seq<string>) returns (found: seq<Directive>)
      requires forall p :: p in walk ==> p in files
      ensures found == Found(sx, files, walk)
    {
      hide FoundFrom, Found;
      found := [];
      assert walk[0..] == walk;
      for k := 0 to |walk|
        invariant found + Found(sx, files, walk[k..]) == Found(sx, files, walk)
      {
        var lines := files[walk[k]];
        ghost var (before, rest) := (found, Found(sx, files, walk[k + 1..]));
        FoundWalkStep(sx, files, walk, k);
        for i := 0 to |lines|
          invariant found + FoundFrom(sx, walk[k], lines, i) == before + FoundFrom(sx, walk[k], lines, 0)
        {
          FoundStep(sx, walk[k], lines, i);
          if sx.matches(lines[i]) {
            found := found + [Directive(walk[k], i + 1)];
          }
        }
        FoundStep(sx, walk[k], lines, |lines|);
        assert found == before + FoundFrom(sx, walk[k], lines, 0);
        assert found + rest == before + (FoundFrom(sx, walk[k], lines, 0) + rest);
      }
      FoundWalkStep(sx, files, walk, |walk|);
    }

    /** Removes the directive at a line, and reports whether that worked. */
    method RemoveAIComment(path: string, line: nat) returns (removed: bool)
      modifies this`files
      ensures removed == (InRange(old(files), Directive(path, line)) && written(Directive(path, line)))
      ensures files == if removed then RemoveOne(sx, old(files), Directive(path, line)) else old(files)
      ensures removed ==>
                var lines := old(files[path]);
                files == old(files)[path :=
                  if !sx.whole(lines[line - 1]) then lines[line - 1 := sx.strip(lines[line - 1])]
                  else if |lines| == 1 then [""]
                  else lines[..line - 1] + lines[line..]]
    {
      if path !in files {
        return false;
      }
      var lines := files[path];
      if line < 1 || line > |lines| {
        return false;
      }
      if sx.whole(lines[line - 1]) {
        lines := lines[..line - 1] + lines[line..];
      } else {
        lines := lines[line - 1 := sx.strip(lines[line - 1])];
      }
      assert lines == files[path][..line - 1] + Without(sx, files[path][line - 1]) + files[path][line..];
      if !written(Directive(path, line)) {
        return false;
      }
      files := files[path := Stored(lines)];
      return true;
    }

    /** Dispatches every directive found on the walk and removes each that was dispatched.  If dispatches
      leave the files alone, they end up as if those that were dispatched and written had been taken out
      all at once; if dispatches edit below the directives only, each removal takes out its own. */
    method ProcessAIDirectives(walk: seq<string>) returns (processed: nat)
      requires Proper(files) && Distinct(walk) && forall p :: p in walk ==> p in files
      modifies this`files
      ensures var order := Sort(Found(sx, old(files), walk));
              && (files, processed) == ProcessEdited(sx, edit, Succeeds(), old(files), order)
              && (EditsBelow(edit, order) ==> AllStillThere(sx, edit, Succeeds(), old(files), old(files), order))
      ensures var gone := Succeeding(Succeeds(), Found(sx, old(files), walk));
              && (LeavesAlone(edit) ==> files == AllAtOnce(sx, old(files), gone))
              && (LeavesAlone(edit) ==> OnlyGone(sx, gone, old(files), files))
              && (LeavesAlone(edit) || EditsBelow(edit, Sort(Found(sx, old(files), walk))) ==> processed == |gone|)
    {
      hide RemoveOne, AllAtOnce, Found, Sort, Proper, BottomUp, Distinct, Succeeding, AllInRange, ProcessEdited;
      hide LeavesAlone, EditsBelow, AllStillThere, SameDownTo, OnlyGone;
      var directives := ScanForAIComments(walk);
      ghost var ok := Succeeds();
      ghost var order := Sort(directives);
      FoundWhat(sx, files, walk);
      SortedBottomUp(ok, directives);
      SortedInRange(files, order);
      OutcomeOf(sx, edit, ok, files, order);
      if directives == [] {
        EmptySort();
        EditedStep(sx, edit, ok, files, [], 0);
        return 0;
      }
      directives := Sort(directives);
      processed := 0;
      assert directives[0..] == directives;
      for k := 0 to |directives|
        invariant var (after, n) := ProcessEdited(sx, edit, ok, files, directives[k..]);
                  (after, n + processed) == ProcessEdited(sx, edit, ok, old(files), directives)
      {
        var d := directives[k];
        EditedStep(sx, edit, ok, files, directives, k);
        files := edit(d, files);
        if dispatched(d) {
          var removed := RemoveAIComment(d.path, d.line);
          if removed {
            processed := processed + 1;
          }
        }
      }
      EditedStep(sx, edit, ok, files, directives, |directives|);
    }
  }

  lemma EmptySort()
    ensures Sort([]) == []
  {
  }

  lemma SameAsItself(files: Files, order: seq<Directive>)
    requires AllInRange(files, order)
    ensures forall d :: d in order ==> SameDownTo(files, files, d)
  {
  }

  /** What the two kinds of dispatch that are safe come to. */
  lemma OutcomeOf(sx: Syntax, edit: Edit, ok: Directive -> bool, files: Files, order: seq<Directive>)
    requires Proper(files) && BottomUp(order) && AllInRange(files, order)
    ensures LeavesAlone(edit) ==>
              ProcessEdited(sx, edit, ok, files, order)
              == (AllAtOnce(sx, files, Succeeding(ok, order)), |Succeeding(ok, order)|)
    ensures OnlyGone(sx, Succeeding(ok, order), files, AllAtOnce(sx, files, Succeeding(ok, order)))
    ensures EditsBelow(edit, order) ==>
              && AllStillThere(sx, edit, ok, files, files, order)
              && ProcessEdited(sx, edit, ok, files, order).1 == |Succeeding(ok, order)|
  {
    hide Proper, BottomUp, AllInRange, AllAtOnce, Succeeding, LeavesAlone, EditsBelow, ProcessEdited, Process;
    hide AllStillThere, SameDownTo, OnlyGone;
    AllAtOnceRemains(sx, files, Succeeding(ok, order));
    if LeavesAlone(edit) {
      WithoutEdits(sx, edit, ok, files, order);
      BottomUpIsAllAtOnce(sx, ok, files, order);
    }
    if EditsBelow(edit, order) {
      SameAsItself(files, order);
      EditsBelowAreSafe(sx, edit, ok, files, files, order);
    }
  }

  lemma EditedStep(sx: Syntax, edit: Edit, ok: Directive -> bool, files: Files, order: seq<Directive>, k: nat)
    requires k <= |order|
    ensures ProcessEdited(sx, edit, ok, files, order[k..]) ==
            if k == |order| then (files, 0)
            else
              var (d, edited) := (order[k], edit(order[k], files));
              if ok(d) && InRange(edited, d) then
                var (after, n) := ProcessEdited(sx, edit, ok, RemoveOne(sx, edited, d), order[k + 1..]);
                (after, n + 1)
              else ProcessEdited(sx, edit, ok, edited, order[k + 1..])
  {
    hide RemoveOne;
    assert k < |order| ==> order[k..][1..] == order[k + 1..];
  }

  lemma SortedInRange(files: Files, ds: seq<Directive>)
    requires forall d :: d in ds ==> InRange(files, d)
    ensures AllInRange(files, ds)
  {
  }

  lemma FoundWalkStep(sx: Syntax, files: Files, walk: seq<string>, k: nat)
    requires k <= |walk| && forall p :: p in walk ==> p in files
    ensures Found(sx, files, walk[k..]) ==
            if k == |walk| then []
            else FoundFrom(sx, walk[k], files[walk[k]], 0) + Found(sx, files, walk[k + 1..])
  {
    hide FoundFrom;
    assert k < |walk| ==> walk[k..][1..] == walk[k + 1..];
  }

  lemma FoundStep(sx: Syntax, p: string, lines: seq<string>, i: nat)
    requires i <= |lines|
    ensures FoundFrom(sx, p, lines, i) ==
            if i == |lines| then []
            else (if sx.matches(lines[i]) then [Directive(p, i + 1)] else []) + FoundFrom(sx, p, lines, i + 1)
  {
  }
}
