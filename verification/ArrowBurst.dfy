/** Telling a scroll wheel from the arrow keys: terminals send wheel motion as quick bursts of Up and
  Down, so a lone arrow key is held back until it is clear that no burst follows.

  A key takes effect when it is passed to the rest of the event loop; that may still ignore an arrow
  key while a burst is on. */
module ArrowBurst {
  import opened Wrappers

  /** Milliseconds within which two arrow keys belong to one burst. */
  const BURST: int := 30

  datatype Key = Up | Down | Other

  /** `pressed` are all keys in order of arrival, and the other fields name them by position:
    `handled` those that reached the rest of the event loop, in order, `pending` the one that is held
    back.  `inFlight` are
    the timers that will fire, by the number of the arrow key that armed them. */
  datatype State = State(
    pressed: seq<Key>,
    handled: seq<nat>,
    pending: Option<nat>,
    burst: bool,
    arrowSeq: nat,
    lastArrow: int,
    inFlight: set<nat>)

  const INITIAL := State([], [], None, false, 0, 0 - BURST, {})

  /** `armed` says whether the timer command of a burst key reaches the runtime: some overlays drop it. */
  datatype Event = Press(key: Key, now: int, armed: bool) | Tick(n: nat)

  /** The key held back takes effect. */
  function Release(s: State): State {
    match s.pending
    case Some(p) => s.(handled := s.handled + [p], pending := None)
    case None => s
  }

  function Handle(s: State, id: nat): State {
    s.(handled := s.handled + [id])
  }

  function PressArrow(s: State, id: nat, now: int, armed: bool): State {
    var n := s.arrowSeq + 1;
    var t := s.(arrowSeq := n, lastArrow := now);
    if now - s.lastArrow < BURST then
      Handle(Release(t.(burst := true)), id).(inFlight := if armed then s.inFlight + {n} else s.inFlight)
    else
      t.(burst := false, pending := Some(id), inFlight := s.inFlight + {n})
  }

  function PressOther(s: State, id: nat): State {
    Handle(if s.pending.Some? then Release(s).(burst := false) else s, id)
  }

  function Step(s: State, e: Event): State {
    match e
    case Press(key, now, armed) =>
      var t := s.(pressed := s.pressed + [key]);
      if key == Other then PressOther(t, |s.pressed|) else PressArrow(t, |s.pressed|, now, armed)
    case Tick(n) =>
      var t := s.(inFlight := s.inFlight - {n});
      if n == s.arrowSeq then Release(t).(burst := false) else t
  }

  predicate Enabled(s: State, e: Event) {
    e.Tick? ==> e.n in s.inFlight
  }

  function Run(events: seq<Event>): State {
    if events == [] then INITIAL else Step(Run(events[..|events| - 1]), events[|events| - 1])
  }

  predicate Feasible(events: seq<Event>) {
    events == []
    || (Feasible(events[..|events| - 1]) && Enabled(Run(events[..|events| - 1]), events[|events| - 1]))
  }

  /** The keys that took effect, then the one that is held back. */
  function Line(s: State): seq<nat> {
    s.handled + (if s.pending.Some? then [s.pending.value] else [])
  }

  ghost predicate Increasing(ids: seq<nat>, bound: nat) {
    && (forall i :: 0 <= i < |ids| ==> ids[i] < bound)
    && (forall i, j :: 0 <= i < j < |ids| ==> ids[i] < ids[j])
  }

  ghost predicate Inv(s: State) {
    && Increasing(Line(s), |s.pressed|)
    && (s.pending.Some? ==>
          s.pending.value < |s.pressed| && s.pressed[s.pending.value] != Other && s.arrowSeq in s.inFlight && !s.burst)
    && (forall n :: n in s.inFlight ==> n <= s.arrowSeq)
  }

  /** No key was lost. */
  ghost predicate Complete(s: State) {
    |Line(s)| == |s.pressed|
  }

  /** An arrow key within 30 milliseconds of the one before belongs to a burst: it takes effect at once,
    behind the key held back.  Any other arrow key ends the burst and is held back, in place of any other,
    until its timer fires. */
  lemma FastAndSlow(s: State, key: Key, now: int, armed: bool)
    requires key != Other
    ensures var (t, id) := (Step(s, Press(key, now, armed)), |s.pressed|);
            && t.pressed == s.pressed + [key] && t.lastArrow == now && t.arrowSeq == s.arrowSeq + 1
            && (now - s.lastArrow < 30 ==>
                  && t.burst && t.pending == None
                  && t.handled == s.handled + (if s.pending.Some? then [s.pending.value] else []) + [id])
            && (now - s.lastArrow >= 30 ==>
                  !t.burst && t.pending == Some(id) && t.handled == s.handled && t.arrowSeq in t.inFlight)
  {
    assert s.handled + [] == s.handled;
  }

  /** Only the timer of the latest arrow key ends a burst and releases the key held back. */
  lemma LatestTimerOnly(s: State, n: nat)
    ensures var t := Step(s, Tick(n));
            if n == s.arrowSeq then
              && !t.burst && t.pending == None
              && t.handled == s.handled + (if s.pending.Some? then [s.pending.value] else [])
            else t == s.(inFlight := t.inFlight)
  {
    assert s.handled + [] == s.handled;
  }

  /** A slow arrow key arrives while another one is still held back. */
  predicate Overwrites(s: State, e: Event) {
    e.Press? && e.key != Other && e.now - s.lastArrow >= 30 && s.pending.Some?
  }

  lemma IncreasingAppend(ids: seq<nat>, bound: nat)
    requires Increasing(ids, bound)
    ensures Increasing(ids + [bound], bound + 1)
  {
  }

  lemma IncreasingPart(ids: seq<nat>, n: nat, bound: nat, more: nat)
    requires Increasing(ids, bound) && n <= |ids| && bound <= more
    ensures Increasing(ids[..n], more)
  {
  }

  lemma {:induction false} IncreasingIsShort(ids: seq<nat>, bound: nat)
    requires Increasing(ids, bound)
    ensures |ids| <= bound
    ensures |ids| == bound ==> forall i :: 0 <= i < bound ==> ids[i] == i
  {
    if ids != [] {
      var (n, last) := (|ids| - 1, ids[|ids| - 1]);
      assert Increasing(ids[..n], last);
      IncreasingIsShort(ids[..n], last);
      assert |ids| == bound ==> last == n;
    }
  }

  /** The line grows by the new key, except that an overwritten key drops out of it. */
  lemma StepLine(s: State, e: Event)
    ensures Line(Step(s, e)) ==
            if e.Tick? then Line(s)
            else if Overwrites(s, e) then s.handled + [|s.pressed|]
            else Line(s) + [|s.pressed|]
  {
  }

  lemma StepKeeps(s: State, e: Event)
    requires Inv(s) && Enabled(s, e)
    ensures Inv(Step(s, e))
    ensures Complete(Step(s, e)) <==> Complete(s) && !Overwrites(s, e)
  {
    hide Increasing, Line;
    StepLine(s, e);
    var m := |s.pressed|;
    IncreasingIsShort(Line(s), m);
    LineParts(s);
    IncreasingPart(Line(s), |s.handled|, m, m);
    IncreasingAppend(Line(s), m);
    IncreasingAppend(s.handled, m);
  }

  lemma LineParts(s: State)
    ensures Line(s)[..|s.handled|] == s.handled
    ensures |Line(s)| == |s.handled| + (if s.pending.Some? then 1 else 0)
    ensures Inv(s) && s.pending.Some? ==> s.pending.value < |s.pressed|
  {
    assert s.pending.Some? ==> Line(s)[|s.handled|] == s.pending.value;
  }

  /** In every run each key takes effect at most once and in the order of arrival, and a key that is
    held back is an arrow whose timer is in flight. */
  lemma {:induction false} InOrderAtMostOnce(events: seq<Event>)
    requires Feasible(events)
    ensures Inv(Run(events))
    ensures Increasing(Run(events).handled, |Run(events).pressed|)
  {
    hide Step, Increasing, Line;
    if events == [] {
      StartOk();
    } else {
      InOrderAtMostOnce(events[..|events| - 1]);
      StepKeeps(Run(events[..|events| - 1]), events[|events| - 1]);
    }
    var s := Run(events);
    LineParts(s);
    IncreasingPart(Line(s), |s.handled|, |s.pressed|, |s.pressed|);
  }

  lemma StartOk()
    ensures Inv(INITIAL)
  {
  }

  /** Some step of the run overwrote a key held back. */
  predicate EverOverwrites(events: seq<Event>) {
    events != []
    && (EverOverwrites(events[..|events| - 1]) || Overwrites(Run(events[..|events| - 1]), events[|events| - 1]))
  }

  /** Exactly once: every key pressed took effect or is the one held back, in order, if and only if no
    slow arrow key arrived while another was held back. */
  lemma {:induction false} ExactlyOnce(events: seq<Event>)
    requires Feasible(events)
    ensures Complete(Run(events)) <==> !EverOverwrites(events)
    ensures !EverOverwrites(events) ==>
              forall i :: 0 <= i < |Run(events).handled| ==> Run(events).handled[i] == i
  {
    hide Step, Overwrites, Inv, Complete;
    InOrderAtMostOnce(events);
    if events == [] {
      StartComplete();
    } else {
      var init := events[..|events| - 1];
      InOrderAtMostOnce(init);
      ExactlyOnce(init);
      StepKeeps(Run(init), events[|events| - 1]);
    }
    var s := Run(events);
    if !EverOverwrites(events) {
      CompleteLine(s);
      assert forall i :: 0 <= i < |s.handled| ==> s.handled[i] == Line(s)[i];
    }
  }

  /** Two slow arrow keys, the second before the timer of the first: the first never takes effect. */
  lemma SlowArrowIsLost()
    ensures var events := [Press(Up, 0, true), Press(Up, 30, true)];
            && Feasible(events) && EverOverwrites(events)
            && !Complete(Run(events)) && Line(Run(events)) == [1]
  {
    var events := [Press(Up, 0, true), Press(Up, 30, true)];
    assert events[..1] == [Press(Up, 0, true)] && events[..1][..0] == [];
    assert Run([]) == INITIAL && Feasible([]);
    assert Feasible(events[..1]);
    var s := State([Up], [], Some(0), false, 1, 0, {1});
    assert Run(events[..1]) == Step(INITIAL, events[0]) == s;
    assert Run(events) == Step(s, events[1]) == State([Up, Up], [], Some(1), false, 2, 30, {1, 2});
  }

  lemma CompleteLine(s: State)
    requires Inv(s) && Complete(s)
    ensures forall i :: 0 <= i < |Line(s)| ==> Line(s)[i] == i
  {
    IncreasingIsShort(Line(s), |s.pressed|);
  }

  lemma StartComplete()
    ensures Complete(INITIAL)
  {
  }

  /** Every command that arms a timer reached the runtime. */
  predicate AllArmed(events: seq<Event>) {
    forall i :: 0 <= i < |events| && events[i].Press? ==> events[i].armed
  }

  /** The burst flag is never stuck: while it is set the timer that clears it is in flight. */
  lemma {:induction false} BurstEnds(events: seq<Event>)
    requires Feasible(events) && AllArmed(events)
    ensures var s := Run(events); s.burst ==> s.arrowSeq in s.inFlight
  {
    hide Step;
    if events != [] {
      var (init, e) := (events[..|events| - 1], events[|events| - 1]);
      assert AllArmed(init) by {
        assert forall i :: 0 <= i < |init| ==> init[i] == events[i];
      }
      BurstEnds(init);
      StepBurst(Run(init), e);
    }
  }

  lemma StepBurst(s: State, e: Event)
    requires (s.burst ==> s.arrowSeq in s.inFlight) && (e.Press? ==> e.armed)
    ensures Step(s, e).burst ==> Step(s, e).arrowSeq in Step(s, e).inFlight
  {
  }

  class ArrowKeys {
    var pendingArrow: Option<nat>
    var arrowBurstActive: bool
    var arrowSeq: nat
    var lastArrowTime: int

    /** How many keys were pressed; a key is held back by its position. */
    var count: nat

    ghost var pressed: seq<Key>
    ghost var handled: seq<nat>
    ghost var inFlight: set<nat>

    ghost function Snapshot(): State
      reads this
    {
      State(pressed, handled, pendingArrow, arrowBurstActive, arrowSeq, lastArrowTime, inFlight)
    }

    ghost predicate Valid()
      reads this
    {
      count == |pressed|
    }

    constructor ()
      ensures Valid() && Snapshot() == INITIAL
    {
      count := 0;
      pendingArrow, arrowBurstActive, arrowSeq, lastArrowTime := None, false, 0, 0 - BURST;
      pressed, handled, inFlight := [], [], {};
    }

    /** The rest of the event loop handles a key. */
    ghost method Process(id: nat)
      modifies this`handled
      ensures handled == old(handled) + [id]
    {
      handled := handled + [id];
    }

    method ProcessPending()
      requires pendingArrow.Some?
      modifies this`handled, this`pendingArrow
      ensures handled == old(handled) + [old(pendingArrow).value] && pendingArrow == None
    {
      Process(pendingArrow.value);
      pendingArrow := None;
    }

    method UpdateKey(key: Key, now: int, armed: bool)
      requires Valid()
      modifies this
      ensures Valid()
      ensures Snapshot() == Step(old(Snapshot()), Press(key, now, armed))
    {
      var id := count;
      count := count + 1;
      pressed := pressed + [key];
      if key == Other {
        UpdateOther(id);
      } else {
        UpdateArrow(id, now, armed);
      }
    }

    method UpdateOther(id: nat)
      modifies this`pendingArrow, this`arrowBurstActive, this`handled
      ensures Snapshot() == PressOther(old(Snapshot()), id)
    {
      if pendingArrow.Some? {
        ProcessPending();
        arrowBurstActive := false;
      }
      Process(id);
    }

    method UpdateArrow(id: nat, now: int, armed: bool)
      modifies this`pendingArrow, this`arrowBurstActive, this`handled, this`arrowSeq, this`lastArrowTime, this`inFlight
      ensures Snapshot() == PressArrow(old(Snapshot()), id, now, armed)
    {
      var dt := now - lastArrowTime;
      lastArrowTime := now;
      arrowSeq := arrowSeq + 1;
      if dt < BURST {
        arrowBurstActive := true;
        if pendingArrow.Some? {
          ProcessPending();
        }
        inFlight := if armed then inFlight + {arrowSeq} else inFlight;
        Process(id);
      } else {
        arrowBurstActive := false;
        pendingArrow := Some(id);
        inFlight := inFlight + {arrowSeq};
      }
    }

    method UpdateProcessArrowTick(n: nat)
      requires Valid()
      modifies this`pendingArrow, this`arrowBurstActive, this`handled, this`inFlight
      ensures Valid()
      ensures Snapshot() == Step(old(Snapshot()), Tick(n))
    {
      inFlight := inFlight - {n};
      if arrowSeq == n {
        arrowBurstActive := false;
      }
      if pendingArrow.Some? && arrowSeq == n {
        ProcessPending();
        arrowBurstActive := false;
      }
    }
  }
}
