/** The persisted list of recently used commands, and the palette that lists them first. */
module Recents {
  import opened Sequences

  const MAX_RECENT: nat := 12

  datatype Entry = Entry(command: string, usedAt: nat, useCount: nat)

  function Commands(entries: seq<Entry>): (names: seq<string>)
    ensures |names| == |entries| && forall i :: 0 <= i < |entries| ==> names[i] == entries[i].command
  {
    seq(|entries|, i requires 0 <= i < |entries| => entries[i].command)
  }

  function Take<T>(s: seq<T>, n: nat): (r: seq<T>)
    ensures |r| <= n
  {
    if |s| > n then s[..n] else s
  }

  /** Only slash commands are recorded. */
  predicate Recordable(cmd: string) {
    cmd != "" && cmd[0] == '/'
  }

  // What the list should be.

  /** `s` without `x`. */
  function Without(s: seq<string>, x: string): (r: seq<string>)
    ensures x !in r && forall y :: y in r <==> y in s && y != x
  {
    if s == [] then [] else (if s[0] == x then [] else [s[0]]) + Without(s[1..], x)
  }

  /** The distinct commands of a history of uses, the last used first. */
  function Recency(uses: seq<string>): seq<string> {
    if uses == [] then []
    else
      var last := uses[|uses| - 1];
      [last] + Without(Recency(uses[..|uses| - 1]), last)
  }

  function LastUse(uses: seq<string>, cmd: string): (i: nat)
    requires cmd in uses
    ensures i < |uses| && uses[i] == cmd && forall j :: i < j < |uses| ==> uses[j] != cmd
  {
    if uses[|uses| - 1] == cmd then |uses| - 1 else LastUse(uses[..|uses| - 1], cmd)
  }

  lemma {:induction false} WithoutKeepsOrder(s: seq<string>, x: string, before: (string, string) -> bool)
    requires Distinct(s) && forall i, j :: 0 <= i < j < |s| ==> before(s[i], s[j])
    ensures var r := Without(s, x);
            Distinct(r) && forall i, j :: 0 <= i < j < |r| ==> before(r[i], r[j])
  {
    if s != [] {
      var rest := s[1..];
      assert forall i :: 0 <= i < |rest| ==> rest[i] == s[i + 1];
      WithoutKeepsOrder(rest, x, before);
      var r := Without(rest, x);
      forall j | 0 <= j < |r|
        ensures r[j] != s[0] && before(s[0], r[j])
      {
        assert r[j] in r;
        assert r[j] in rest;
      }
    }
  }

  /** `Recency` lists exactly the commands that were used, each once, by the time of its last use. */
  lemma {:induction false} RecencyMeaning(uses: seq<string>)
    ensures Distinct(Recency(uses))
    ensures forall c :: c in Recency(uses) <==> c in uses
    ensures forall i, j :: 0 <= i < j < |Recency(uses)| ==>
              LastUse(uses, Recency(uses)[i]) > LastUse(uses, Recency(uses)[j])
  {
    if uses != [] {
      var (init, last) := (uses[..|uses| - 1], uses[|uses| - 1]);
      RecencyMeaning(init);
      assert uses == init + [last];
      var older := Recency(init);
      hide LastUse;
      WithoutKeepsOrder(older, last, (a, b) => a in init && b in init && LastUse(init, a) > LastUse(init, b));
      var r := Without(older, last);
      assert Recency(uses) == [last] + r;
      forall i | 0 <= i < |r|
        ensures r[i] in init && r[i] != last && LastUse(uses, r[i]) == LastUse(init, r[i]) < |uses| - 1
      {
        assert r[i] in r;
        assert r[i] in older;
      }
    }
  }

  // What the program keeps.

  /** The index of a command, or -1. */
  function FirstIndex(entries: seq<Entry>, cmd: string): (n: int)
    ensures -1 <= n < |entries|
    ensures n >= 0 ==> entries[n].command == cmd && forall i :: 0 <= i < n ==> entries[i].command != cmd
    ensures n < 0 ==> forall i :: 0 <= i < |entries| ==> entries[i].command != cmd
  {
    if entries == [] then -1
    else if entries[0].command == cmd then 0
    else
      var n := FirstIndex(entries[1..], cmd);
      if n < 0 then -1 else n + 1
  }

  /** The entries after a use of `cmd`, as they are written. */
  function Recorded(entries: seq<Entry>, cmd: string, now: nat): seq<Entry> {
    var found := FirstIndex(entries, cmd);
    var moved :=
      if found >= 0 then
        [entries[found].(usedAt := now, useCount := entries[found].useCount + 1)]
        + (entries[..found] + entries[found + 1..])
      else [Entry(cmd, now, 1)] + entries;
    Take(moved, MAX_RECENT)
  }

  /** A use of a command: when it happened, and whether the file could be written. */
  datatype Use = Use(cmd: string, now: nat, written: bool)

  function Stored(disk: seq<Entry>, use: Use): seq<Entry> {
    if Recordable(use.cmd) && use.written then Recorded(disk, use.cmd, use.now) else disk
  }

  function Run(uses: seq<Use>): seq<Entry> {
    if uses == [] then [] else Stored(Run(uses[..|uses| - 1]), uses[|uses| - 1])
  }

  /** The uses that are to be recorded: those of slash commands whose write succeeded. */
  function Kept(uses: seq<Use>): (kept: seq<string>) {
    if uses == [] then []
    else
      var last := uses[|uses| - 1];
      Kept(uses[..|uses| - 1]) + (if "/" <= last.cmd && last.written then [last.cmd] else [])
  }

  lemma {:induction false} WithoutAt(s: seq<string>, x: string, k: nat)
    requires Distinct(s) && k < |s| && s[k] == x
    ensures Without(s, x) == s[..k] + s[k + 1..]
  {
    var rest := s[1..];
    if k == 0 {
      WithoutNone(rest, x);
    } else {
      assert forall i :: 0 <= i < |rest| ==> rest[i] == s[i + 1];
      WithoutAt(rest, x, k - 1);
      assert s[..k] == [s[0]] + rest[..k - 1] && s[k + 1..] == rest[k..];
    }
  }

  lemma {:induction false} WithoutNone(s: seq<string>, x: string)
    requires x !in s
    ensures Without(s, x) == s
  {
    if s != [] {
      WithoutNone(s[1..], x);
      assert s == [s[0]] + s[1..];
    }
  }

  lemma CommandsTake(a: seq<Entry>, n: nat)
    ensures Commands(Take(a, n)) == Take(Commands(a), n)
  {
  }

  lemma CommandsSplit(entries: seq<Entry>, k: nat)
    requires k < |entries|
    ensures Commands(entries[..k] + entries[k + 1..]) == Commands(entries)[..k] + Commands(entries)[k + 1..]
  {
  }

  lemma CommandsCons(e: Entry, rest: seq<Entry>)
    ensures Commands([e] + rest) == [e.command] + Commands(rest)
  {
  }

  /** The new list of names is the old one with the command moved to the front, then truncated. */
  lemma RecordedNames(entries: seq<Entry>, cmd: string, now: nat)
    requires Distinct(Commands(entries))
    ensures Commands(Recorded(entries, cmd, now)) == Take([cmd] + Without(Commands(entries), cmd), MAX_RECENT)
  {
    hide Take, Without, FirstIndex, Commands, Distinct;
    var names := Commands(entries);
    var k := FirstIndex(entries, cmd);
    if k >= 0 {
      var used := entries[k].(usedAt := now, useCount := entries[k].useCount + 1);
      assert names[k] == entries[k].command == cmd;
      WithoutAt(names, cmd, k);
      CommandsSplit(entries, k);
      CommandsCons(used, entries[..k] + entries[k + 1..]);
      CommandsTake([used] + (entries[..k] + entries[k + 1..]), MAX_RECENT);
    } else {
      assert forall i :: 0 <= i < |names| ==> names[i] != cmd;
      WithoutNone(names, cmd);
      CommandsCons(Entry(cmd, now, 1), entries);
      CommandsTake([Entry(cmd, now, 1)] + entries, MAX_RECENT);
    }
  }

  /** The entry in front is that of the command, used now and once more than before. */
  lemma RecordedEntry(entries: seq<Entry>, cmd: string, now: nat)
    ensures var recorded := Recorded(entries, cmd, now);
            && 0 < |recorded| <= 12 && recorded[0].command == cmd && recorded[0].usedAt == now
            && ((forall i :: 0 <= i < |entries| ==> entries[i].command != cmd) ==> recorded[0].useCount == 1)
            && forall i :: 0 <= i < |entries| && entries[i].command == cmd
                           && (forall j :: 0 <= j < i ==> entries[j].command != cmd) ==>
                 recorded[0].useCount == entries[i].useCount + 1
  {
    var k := FirstIndex(entries, cmd);
    assert k >= 0 ==> entries[k].command == cmd;
  }

  /** Moving to the front of a truncated list and truncating again is moving to the front of the
    whole list and truncating. */
  lemma MoveToFront(r: seq<string>, cmd: string, n: nat)
    requires Distinct(r)
    ensures Take([cmd] + Without(Take(r, n), cmd), n) == Take([cmd] + Without(r, cmd), n)
  {
    hide Without;
    if |r| > n {
      var t := r[..n];
      if cmd in t {
        var k :| 0 <= k < n && t[k] == cmd;
        WithoutAt(t, cmd, k);
        WithoutAt(r, cmd, k);
        var (whole, cut) := ([cmd] + (r[..k] + r[k + 1..]), [cmd] + (t[..k] + t[k + 1..]));
        assert whole[..n] == cut;
      } else {
        WithoutNone(t, cmd);
        var rest := [cmd] + Without(r, cmd);
        assert forall i :: 0 <= i < n ==> t[i] == r[i];
        if cmd in r {
          var k :| 0 <= k < |r| && r[k] == cmd;
          WithoutAt(r, cmd, k);
        } else {
          WithoutNone(r, cmd);
        }
        assert ([cmd] + t)[..n] == rest[..n];
      }
    }
  }

  lemma KeptLast(uses: seq<Use>)
    requires uses != []
    ensures var (init, last) := (uses[..|uses| - 1], uses[|uses| - 1]);
            Recency(Kept(uses)) ==
            if Recordable(last.cmd) && last.written then [last.cmd] + Without(Recency(Kept(init)), last.cmd)
            else Recency(Kept(init))
  {
    var (init, last) := (uses[..|uses| - 1], uses[|uses| - 1]);
    assert Recordable(last.cmd) <==> "/" <= last.cmd;
    hide Without, Recency, Recordable;
    RecencySnoc(Kept(init), last.cmd);
    assert Kept(init) + [] == Kept(init);
  }

  lemma RecencySnoc(uses: seq<string>, last: string)
    ensures Recency(uses + [last]) == [last] + Without(Recency(uses), last)
  {
    hide Without;
    assert (uses + [last])[..|uses|] == uses;
  }

  /** After any run of uses from an empty file, failed writes included, the stored commands are the
    first twelve of all recorded ones by last use; so they are distinct. */
  lemma {:induction false} RunIsRecency(uses: seq<Use>)
    ensures Commands(Run(uses)) == Take(Recency(Kept(uses)), 12)
    ensures Distinct(Commands(Run(uses)))
  {
    hide Recorded, Commands, Recency, Kept, Without, Recordable;
    RecencyMeaning(Kept(uses));
    if uses == [] {
      NoCommands();
    } else {
      var (init, last) := (uses[..|uses| - 1], uses[|uses| - 1]);
      RunIsRecency(init);
      RecencyMeaning(Kept(init));
      KeptLast(uses);
      RecordedNames(Run(init), last.cmd, last.now);
      MoveToFront(Recency(Kept(init)), last.cmd, MAX_RECENT);
    }
  }

  lemma NoCommands()
    ensures Commands([]) == [] && Recency(Kept([])) == []
  {
  }

  // Reading the list back.

  /** `s` with only the first of equal elements. */
  function Firsts(s: seq<string>): (r: seq<string>)
    ensures forall x :: x in r <==> x in s
  {
    if s == [] then []
    else
      var (init, last) := (s[..|s| - 1], s[|s| - 1]);
      assert s == init + [last];
      Firsts(init) + (if last in init then [] else [last])
  }

  lemma {:induction false} FirstsDistinct(s: seq<string>)
    ensures Distinct(Firsts(s)) && (Distinct(s) ==> Firsts(s) == s)
  {
    hide Distinct;
    if s == [] {
      NoneDistinct();
    } else {
      var (init, last) := (s[..|s| - 1], s[|s| - 1]);
      FirstsDistinct(init);
      assert s == init + [last];
      DistinctSnoc(init, last);
      DistinctSnoc(Firsts(init), last);
      assert Firsts(init) + [] == Firsts(init);
    }
  }

  lemma NoneDistinct()
    ensures Distinct<string>([])
  {
  }

  // The palette.

  datatype PaletteEntry = PaletteEntry(name: string, category: string, action: string)

  function Names(entries: seq<PaletteEntry>): (names: seq<string>)
    ensures |names| == |entries| && forall i :: 0 <= i < |entries| ==> names[i] == entries[i].name
  {
    seq(|entries|, i requires 0 <= i < |entries| => entries[i].name)
  }

  function RecentEntries(recent: seq<string>): (es: seq<PaletteEntry>)
    ensures |es| == |recent|
    ensures forall i :: 0 <= i < |es| ==> es[i] == PaletteEntry(recent[i], "Recent", recent[i])
  {
    seq(|recent|, i requires 0 <= i < |recent| => PaletteEntry(recent[i], "Recent", recent[i]))
  }

  function Others(entries: seq<PaletteEntry>, recent: seq<string>): (es: seq<PaletteEntry>)
    ensures forall e :: e in es <==> e in entries && e.name !in recent
  {
    if entries == [] then []
    else (if entries[0].name in recent then [] else [entries[0]]) + Others(entries[1..], recent)
  }

  /** What the palette lists for the empty query. */
  function EmptyQuery(recent: seq<string>, entries: seq<PaletteEntry>): seq<PaletteEntry> {
    RecentEntries(recent) + Others(entries, recent)
  }

  lemma NamesCons(e: PaletteEntry, rest: seq<PaletteEntry>)
    ensures Names([e] + rest) == [e.name] + Names(rest)
  {
  }

  lemma {:induction false} OthersDistinct(entries: seq<PaletteEntry>, recent: seq<string>)
    requires Distinct(Names(entries))
    ensures Distinct(Names(Others(entries, recent)))
    ensures forall name :: name in Names(Others(entries, recent)) <==> name in Names(entries) && name !in recent
  {
    hide Distinct, Names;
    if entries != [] {
      var (e, rest) := (entries[0], entries[1..]);
      assert entries == [e] + rest;
      NamesCons(e, rest);
      DistinctCons(e.name, Names(rest));
      OthersDistinct(rest, recent);
      var kept := Others(rest, recent);
      NamesCons(e, kept);
      DistinctCons(e.name, Names(kept));
      assert [] + kept == kept;
    }
  }

  lemma NamesBehindRecent(recent: seq<string>, others: seq<PaletteEntry>)
    ensures Names(RecentEntries(recent) + others) == recent + Names(others)
  {
  }

  /** The palette lists the recent commands first, as they are, and then every other entry: each name
    is listed once, and no name is lost. */
  lemma EmptyQueryListsAll(recent: seq<string>, entries: seq<PaletteEntry>)
    requires Distinct(recent) && Distinct(Names(entries))
    ensures var names := Names(EmptyQuery(recent, entries));
            && Distinct(names)
            && recent <= names
            && forall name :: name in names <==> name in recent || name in Names(entries)
  {
    hide Distinct, Others, Names;
    var others := Others(entries, recent);
    OthersDistinct(entries, recent);
    NamesBehindRecent(recent, others);
    DistinctConcat(recent, Names(others));
  }

  /** After any run of uses the empty query lists every entry exactly once, behind the twelve commands
    used last. */
  lemma PaletteAfterAnyRun(uses: seq<Use>, entries: seq<PaletteEntry>)
    requires Distinct(Names(entries))
    ensures var recent := Take(Recency(Kept(uses)), 12);
            var names := Names(EmptyQuery(Firsts(Commands(Run(uses))), entries));
            && Distinct(names) && recent <= names
            && forall name :: name in names <==> name in recent || name in Names(entries)
  {
    hide Take, Names, EmptyQuery, Run, Kept, Recency, Firsts, Commands, Distinct;
    RunIsRecency(uses);
    FirstsDistinct(Commands(Run(uses)));
    EmptyQueryListsAll(Commands(Run(uses)), entries);
  }

  /** The history file, and the entries of the palette. */
  class CommandPalette {
    var disk: seq<Entry>
    var entries: seq<PaletteEntry>
    var filtered: seq<PaletteEntry>

    constructor (entries: seq<PaletteEntry>)
      ensures disk == Run([]) && this.entries == entries && filtered == entries
    {
      this.disk, this.entries, this.filtered := [], entries, entries;
    }

    method SaveCommandHistory(h: seq<Entry>, written: bool)
      modifies this`disk
      ensures disk == if written then Take(h, 12) else old(disk)
    {
      var kept := h;
      if |kept| > MAX_RECENT {
        kept := kept[..MAX_RECENT];
      }
      if written {
        disk := kept;
      }
    }

    method RecordCommandUsed(cmd: string, now: nat, written: bool)
      modifies this`disk
      ensures disk == Stored(old(disk), Use(cmd, now, written))
    {
      if cmd == "" || cmd[0] != '/' {
        return;
      }
      var h := disk;
      var found := -1;
      for i := 0 to |h|
        invariant found == -1
        invariant forall j :: 0 <= j < i ==> h[j].command != cmd
      {
        if h[i].command == cmd {
          found := i;
          break;
        }
      }
      assert found == FirstIndex(h, cmd);
      if found >= 0 {
        var entry := h[found].(usedAt := now, useCount := h[found].useCount + 1);
        h := h[..found] + h[found + 1..];
        h := [entry] + h;
      } else {
        h := [Entry(cmd, now, 1)] + h;
      }
      SaveCommandHistory(h, written);
    }

    method RecentCommands() returns (result: seq<string>)
      ensures result == Firsts(Commands(disk))
    {
      hide Firsts;
      var seen: set<string> := {};
      result := [];
      ghost var names := Commands(disk);
      FirstsGrow(names, 0);
      for i := 0 to |disk|
        invariant result == Firsts(names[..i])
        invariant forall x :: x in seen <==> x in names[..i]
      {
        FirstsGrow(names, i + 1);
        assert names[..i + 1] == names[..i] + [names[i]];
        if disk[i].command !in seen {
          seen := seen + {disk[i].command};
          result := result + [disk[i].command];
        }
      }
      assert names[..|disk|] == names;
    }

    /** The palette for the empty query. */
    method FilterEmpty()
      modifies this`filtered
      ensures filtered == EmptyQuery(Firsts(Commands(disk)), entries)
    {
      hide Firsts, Others;
      var recent := RecentCommands();
      OthersStep(entries, recent, |entries|);
      if recent == [] {
        NoneRecent(entries);
        filtered := entries;
        return;
      }
      var recentSet: set<string> := {};
      var merged: seq<PaletteEntry> := [];
      for i := 0 to |recent|
        invariant merged == RecentEntries(recent[..i])
        invariant forall x :: x in recentSet <==> x in recent[..i]
      {
        assert recent[..i + 1] == recent[..i] + [recent[i]];
        merged := merged + [PaletteEntry(recent[i], "Recent", recent[i])];
        recentSet := recentSet + {recent[i]};
      }
      assert recent[..|recent|] == recent;
      assert entries[0..] == entries;
      for i := 0 to |entries|
        invariant merged + Others(entries[i..], recent) == EmptyQuery(recent, entries)
      {
        OthersStep(entries, recent, i);
        if entries[i].name !in recentSet {
          merged := merged + [entries[i]];
        }
      }
      filtered := merged;
    }
  }

  lemma FirstsGrow(names: seq<string>, n: nat)
    requires n <= |names|
    ensures Firsts(names[..n]) ==
            if n == 0 then []
            else Firsts(names[..n - 1]) + (if names[n - 1] in names[..n - 1] then [] else [names[n - 1]])
  {
    if n > 0 {
      assert names[..n][..n - 1] == names[..n - 1];
    }
  }

  lemma OthersStep(entries: seq<PaletteEntry>, recent: seq<string>, i: nat)
    requires i <= |entries|
    ensures Others(entries[i..], recent) ==
            if i == |entries| then []
            else (if entries[i].name in recent then [] else [entries[i]]) + Others(entries[i + 1..], recent)
  {
    if i < |entries| {
      assert entries[i..][1..] == entries[i + 1..];
    }
  }

  lemma {:induction false} NoneRecent(entries: seq<PaletteEntry>)
    ensures Others(entries, []) == entries
  {
    if entries != [] {
      NoneRecent(entries[1..]);
      assert entries == [entries[0]] + entries[1..];
    }
  }
}
