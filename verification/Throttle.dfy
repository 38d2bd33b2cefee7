/** Throttled painting of the streaming text: at most one paint per interval, with a timer that picks
  up what was not painted at once.  Timers cannot be stopped, so older ones may still be in flight. */
module Throttle {

  const INTERVAL: nat := 50

  /** `shown` is the text the viewport held when it was last repainted, `inFlight` are the timers in
    flight, and `armed` of them were started so far; timer `armed - 1` is the latest. */
  datatype State = State(
    partial: string,
    shown: string,
    partialDirty: bool,
    partialRenderPending: bool,
    viewDirty: bool,
    lastPartialRender: nat,
    inFlight: set<nat>,
    armed: nat)

  datatype Event =
    | Chunk(text: string, now: nat)
    | Tick(id: nat, now: nat)
    | StreamDone
    | Reset
    | Repaint

  const INITIAL := State("", "", false, false, false, 0, {}, 0)

  function Paint(s: State): State {
    if s.viewDirty then s.(viewDirty := false, shown := s.partial) else s
  }

  function Mark(s: State, now: nat): State {
    if now - s.lastPartialRender >= INTERVAL then
      s.(viewDirty := true, lastPartialRender := now, partialDirty := false, partialRenderPending := false)
    else if s.partialRenderPending then s.(partialDirty := true)
    else
      s.(partialDirty := true, partialRenderPending := true,
         inFlight := s.inFlight + {s.armed}, armed := s.armed + 1)
  }

  function HandleTick(s: State, id: nat, now: nat): State {
    var t := s.(partialRenderPending := false, inFlight := s.inFlight - {id});
    if t.partialDirty then Paint(t.(viewDirty := true, partialDirty := false, lastPartialRender := now)) else t
  }

  function Flush(s: State): State {
    s.(viewDirty := s.viewDirty || s.partialDirty, partialDirty := false, partialRenderPending := false)
  }

  function Step(s: State, e: Event): State {
    match e
    case Chunk(text, now) => Paint(Mark(s.(partial := s.partial + text), now))
    case Tick(id, now) => HandleTick(s, id, now)
    case StreamDone => Flush(s).(partial := "", viewDirty := true)
    case Reset => s.(partial := "", viewDirty := true)
    case Repaint => Paint(s.(viewDirty := true))
  }

  /** A timer can only fire once, after it was started. */
  predicate Enabled(s: State, e: Event) {
    e.Tick? ==> e.id in s.inFlight
  }

  function Run(events: seq<Event>): State {
    if events == [] then INITIAL else Step(Run(events[..|events| - 1]), events[|events| - 1])
  }

  predicate Feasible(events: seq<Event>) {
    events == []
    || (Feasible(events[..|events| - 1]) && Enabled(Run(events[..|events| - 1]), events[|events| - 1]))
  }

  ghost predicate Inv(s: State) {
    && (s.partialDirty ==> s.partialRenderPending)
    && (s.partialRenderPending ==> s.armed > 0 && s.armed - 1 in s.inFlight)
    && (forall id :: id in s.inFlight ==> id < s.armed)
    && (s.shown != s.partial ==> s.partialDirty || s.viewDirty)
  }

  lemma StepKeeps(s: State, e: Event)
    requires Inv(s) && Enabled(s, e)
    ensures Inv(Step(s, e))
  {
  }

  /** No text is stranded, in any run: while the text on the screen is behind and no repaint is due,
    the timer started last is still in flight, however many older ones are. */
  lemma {:induction false} NothingStranded(events: seq<Event>)
    requires Feasible(events)
    ensures var s := Run(events);
            && Inv(s)
            && (s.partialDirty ==> s.partialRenderPending && s.armed > 0 && s.armed - 1 in s.inFlight)
            && (s.inFlight == {} && !s.viewDirty ==> s.shown == s.partial)
  {
    if events != [] {
      NothingStranded(events[..|events| - 1]);
      StepKeeps(Run(events[..|events| - 1]), events[|events| - 1]);
    }
  }

  /** Whichever timer fires first brings the screen up to date. */
  lemma AnyTickCatchesUp(events: seq<Event>, id: nat, now: nat)
    requires Feasible(events) && Enabled(Run(events), Tick(id, now))
    ensures var (s, t) := (Run(events), Run(events + [Tick(id, now)]));
            && Feasible(events + [Tick(id, now)])
            && !t.partialDirty
            && (!s.viewDirty ==> t.shown == t.partial == s.partial)
  {
    NothingStranded(events);
    assert (events + [Tick(id, now)])[..|events|] == events;
  }

  /** The chunks that arrived since the last stream ended. */
  function Streamed(events: seq<Event>): string {
    if events == [] then ""
    else
      var (init, e) := (events[..|events| - 1], events[|events| - 1]);
      match e
      case Chunk(text, _) => Streamed(init) + text
      case StreamDone => ""
      case Reset => ""
      case _ => Streamed(init)
  }

  /** In every run the text is that of the chunks, in order; so what a screen that is up to date shows is. */
  lemma {:induction false} TextIsTheChunks(events: seq<Event>)
    requires Feasible(events)
    ensures Run(events).partial == Streamed(events)
    ensures Run(events).inFlight == {} && !Run(events).viewDirty ==> Run(events).shown == Streamed(events)
  {
    NothingStranded(events);
    if events != [] {
      TextIsTheChunks(events[..|events| - 1]);
    }
  }

  /** A chunk is painted at once if and only if 50 milliseconds have passed since the last paint of
    streamed text or a repaint was due anyway; otherwise the screen stays, and the text is marked for a
    timer. */
  lemma ChunkPaints(s: State, text: string, now: nat)
    ensures var t := Step(s, Chunk(text, now));
            && t.partial == s.partial + text
            && (now - s.lastPartialRender >= 50 || s.viewDirty ==> t.shown == s.partial + text && !t.viewDirty)
            && (now - s.lastPartialRender >= 50 ==> t.lastPartialRender == now && !t.partialDirty)
            && (now - s.lastPartialRender < 50 ==>
                  && t.lastPartialRender == s.lastPartialRender && t.partialDirty && t.partialRenderPending
                  && (!s.viewDirty ==> t.shown == s.shown))
  {
  }

  class Painter {
    var partial: string
    var shown: string
    var partialDirty: bool
    var partialRenderPending: bool
    var viewDirty: bool
    var lastPartialRender: nat
    ghost var ticks: set<nat>
    ghost var armed: nat

    ghost function Snapshot(): State
      reads this
    {
      State(partial, shown, partialDirty, partialRenderPending, viewDirty, lastPartialRender, ticks, armed)
    }

    constructor ()
      ensures Snapshot() == INITIAL
    {
      partial, shown, lastPartialRender := "", "", 0;
      partialDirty, partialRenderPending, viewDirty := false, false, false;
      ticks, armed := {}, 0;
    }

    method UpdateViewportContent()
      modifies this
      ensures Snapshot() == Paint(old(Snapshot()))
    {
      if !viewDirty {
        return;
      }
      viewDirty := false;
      shown := partial;
    }

    method MarkPartialDirty(now: nat)
      modifies this
      ensures Snapshot() == Mark(old(Snapshot()), now)
    {
      partialDirty := true;
      if now - lastPartialRender >= INTERVAL {
        viewDirty := true;
        lastPartialRender := now;
        partialDirty := false;
        partialRenderPending := false;
        return;
      }
      if partialRenderPending {
        return;
      }
      partialRenderPending := true;
      ticks, armed := ticks + {armed}, armed + 1;
    }

    method FlushPartialDirty()
      modifies this
      ensures Snapshot() == Flush(old(Snapshot()))
    {
      if partialDirty {
        viewDirty := true;
        partialDirty := false;
      }
      partialRenderPending := false;
    }

    method HandleStreamChunk(text: string, now: nat)
      modifies this
      ensures Snapshot() == Step(old(Snapshot()), Chunk(text, now))
    {
      partial := partial + text;
      MarkPartialDirty(now);
      if viewDirty {
        UpdateViewportContent();
      }
    }

    method HandleStreamRenderTick(ghost id: nat, now: nat)
      modifies this
      ensures Snapshot() == Step(old(Snapshot()), Tick(id, now))
    {
      ticks := ticks - {id};
      partialRenderPending := false;
      if partialDirty {
        viewDirty := true;
        partialDirty := false;
        lastPartialRender := now;
        UpdateViewportContent();
      }
    }

    method HandleStreamDone()
      modifies this
      ensures Snapshot() == Step(old(Snapshot()), StreamDone)
    {
      FlushPartialDirty();
      partial := "";
      viewDirty := true;
    }
  }
}
