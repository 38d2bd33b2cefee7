/** The write-ahead log and the asynchronous session saves of one session.

  The transcript only grows.  A message is logged when its event arrives, which for the result of a tool
  is before the transcript receives the results of the whole batch.  A save captures the transcript
  together with the append counter, is written to disk later off the UI thread, and its result is
  delivered later still; the log is dropped when the delivered counter still matches.  Messages are
  named by the position that they have, or will have, in the transcript; one that never enters it by a
  position beyond it. */
module SessionLog {

  datatype Message = Message(role: string, content: string)

  datatype Stage = Pending | Done(ok: bool) | Delivered(ok: bool)

  /** `attempts` is history: the true number of append attempts at capture, of which `seqNo` is the
    64-bit remainder. */
  datatype Save = Save(snapshot: seq<Message>, seqNo: nat, attempts: nat, stage: Stage)

  /** `appended` (every message ever appended successfully), `attempts` and `mark` (one past the
    highest position that ever left the log with it) are history. */
  datatype State = State(
    transcript: seq<Message>,
    open: bool,
    log: seq<nat>,
    walSeq: nat,
    disk: seq<Message>,
    saves: seq<Save>,
    appended: seq<nat>,
    attempts: nat,
    mark: nat)

  const WORD: nat := 0x1_0000_0000_0000_0000

  const INITIAL := State([], false, [], 0, [], [], [], 0, 0)

  datatype Event =
    | Grow(messages: seq<Message>)
    | Open(opens: bool)
    | Log(position: nat, opens: bool, appends: bool)
    | Capture
    | Write(index: nat, ok: bool)
    | Deliver(index: nat, removes: bool)
    | SaveNow(ok: bool, removes: bool)

  // ----- Steps -----

  /** One past the highest position in `log`. */
  function Top(log: seq<nat>): (top: nat)
    ensures forall p :: p in log ==> p < top
    ensures top > 0 ==> top - 1 in log
  {
    if log == [] then 0
    else
      var rest := Top(log[1..]);
      assert log == [log[0]] + log[1..];
      if log[0] >= rest then log[0] + 1 else rest
  }

  function Drop(s: State): State {
    s.(open := false, log := [], mark := if Top(s.log) > s.mark then Top(s.log) else s.mark)
  }

  function EnsureOpen(s: State, opens: bool): State {
    if s.open || !opens then s else s.(open := true)
  }

  /** Every append attempt advances the counter, whether or not the append succeeds. */
  function Append(s: State, position: nat, appends: bool): State {
    if !s.open then s
    else
      var s1 := s.(walSeq := (s.walSeq + 1) % WORD, attempts := s.attempts + 1);
      if appends then s1.(log := s.log + [position], appended := s.appended + [position]) else s1
  }

  function CaptureSave(s: State): State {
    if s.transcript == [] then s
    else s.(saves := s.saves + [Save(s.transcript, s.walSeq, s.attempts, Pending)])
  }

  function WriteSave(s: State, i: nat, ok: bool): State
    requires i < |s.saves|
  {
    s.(saves := s.saves[i := s.saves[i].(stage := Done(ok))],
       disk := if ok then s.saves[i].snapshot else s.disk)
  }

  predicate Drops(s: State, i: nat, removes: bool)
    requires i < |s.saves|
  {
    s.saves[i].stage == Done(true) && s.saves[i].seqNo == s.walSeq && s.open && removes
  }

  function DeliverSave(s: State, i: nat, removes: bool): State
    requires i < |s.saves| && s.saves[i].stage.Done?
  {
    var s1 := s.(saves := s.saves[i := s.saves[i].(stage := Delivered(s.saves[i].stage.ok))]);
    if Drops(s, i, removes) then Drop(s1) else s1
  }

  /** The synchronous save: capture, write and drop in one step. */
  function SaveAtOnce(s: State, ok: bool, removes: bool): State {
    if s.transcript == [] then s
    else
      var s1 := s.(saves := s.saves + [Save(s.transcript, s.walSeq, s.attempts, Delivered(ok))],
                   disk := if ok then s.transcript else s.disk);
      if ok && s.open && removes then Drop(s1) else s1
  }

  function Step(s: State, e: Event): State
    requires Enabled(s, e)
  {
    match e
    case Grow(messages) => s.(transcript := s.transcript + messages)
    case Open(opens) => EnsureOpen(s, opens)
    case Log(p, opens, appends) => Append(EnsureOpen(s, opens), p, appends)
    case Capture => CaptureSave(s)
    case Write(i, ok) => WriteSave(s, i, ok)
    case Deliver(i, removes) => DeliverSave(s, i, removes)
    case SaveNow(ok, removes) => SaveAtOnce(s, ok, removes)
  }

  /** A message is logged once; a save is written once and delivered once, in that order. */
  predicate Enabled(s: State, e: Event) {
    match e
    case Log(p, _, _) => p !in s.appended
    case Write(i, _) => i < |s.saves| && s.saves[i].stage.Pending?
    case Deliver(i, _) => i < |s.saves| && s.saves[i].stage.Done?
    case _ => true
  }

  predicate Feasible(events: seq<Event>)
    decreases |events|, 0
  {
    events == [] ||
    (Feasible(events[..|events| - 1]) && Enabled(Run(events[..|events| - 1]), events[|events| - 1]))
  }

  function Run(events: seq<Event>): State
    requires Feasible(events)
    decreases |events|, 1
  {
    if events == [] then INITIAL else Step(Run(events[..|events| - 1]), events[|events| - 1])
  }

  // ----- Durability -----

  /** Every message that was ever appended to the log is still in the log or in the file on disk. */
  ghost predicate Durable(s: State) {
    forall p :: p in s.appended ==> p in s.log || p < |s.disk|
  }

  ghost predicate SavesOk(s: State) {
    forall i :: 0 <= i < |s.saves| ==>
      && s.saves[i].snapshot <= s.transcript
      && s.saves[i].attempts <= s.attempts
      && s.saves[i].seqNo == s.saves[i].attempts % WORD
  }

  ghost predicate LaterIsLonger(saves: seq<Save>) {
    forall i, j :: 0 <= i <= j < |saves| ==> |saves[i].snapshot| <= |saves[j].snapshot|
  }

  /** What every run keeps, in whatever order snapshots reach the disk. */
  ghost predicate Inv(s: State) {
    && s.disk <= s.transcript
    && s.walSeq == s.attempts % WORD
    && (forall p :: p in s.appended ==> p in s.log || p < s.mark)
    && (forall p :: p in s.log ==> p in s.appended)
    && (s.mark > 0 ==> s.mark - 1 in s.appended && s.mark - 1 !in s.log)
    && SavesOk(s) && LaterIsLonger(s.saves)
  }

  lemma AppendKeeps(s: State, p: nat, appends: bool)
    requires Inv(s) && p !in s.appended
    ensures Inv(Append(s, p, appends))
  {
    assert (s.attempts % WORD + 1) % WORD == (s.attempts + 1) % WORD;
  }

  lemma DropKeeps(s: State)
    requires Inv(s)
    ensures Inv(Drop(s))
  {
  }

  lemma NewSaveKeeps(s: State, stage: Stage)
    requires Inv(s)
    ensures Inv(s.(saves := s.saves + [Save(s.transcript, s.walSeq, s.attempts, stage)]))
  {
  }

  lemma StageKeeps(s: State, i: nat, stage: Stage)
    requires Inv(s) && i < |s.saves|
    ensures Inv(s.(saves := s.saves[i := s.saves[i].(stage := stage)]))
  {
  }

  lemma StepKeeps(s: State, e: Event)
    requires Inv(s) && Enabled(s, e)
    ensures Inv(Step(s, e))
  {
    match e
    case Grow(_) =>
    case Open(_) =>
    case Log(p, opens, appends) => AppendKeeps(EnsureOpen(s, opens), p, appends);
    case Capture => NewSaveKeeps(s, Pending);
    case Write(i, ok) => StageKeeps(s, i, Done(ok));
    case Deliver(i, removes) =>
      StageKeeps(s, i, Delivered(s.saves[i].stage.ok));
      DropKeeps(s.(saves := s.saves[i := s.saves[i].(stage := Delivered(s.saves[i].stage.ok))]));
    case SaveNow(ok, removes) => SaveNowKeeps(s, ok, removes);
  }

  lemma SaveNowKeeps(s: State, ok: bool, removes: bool)
    requires Inv(s)
    ensures Inv(SaveAtOnce(s, ok, removes))
  {
    hide SavesOk, LaterIsLonger;
    NewSaveKeeps(s, Delivered(ok));
    var s1 := s.(saves := s.saves + [Save(s.transcript, s.walSeq, s.attempts, Delivered(ok))]);
    assert Inv(s1);
    var s2 := s1.(disk := if ok then s.transcript else s.disk);
    assert SavesOk(s2) by { SameSaves(s1, s2); }
    DropKeeps(s2);
  }

  lemma SameSaves(s: State, s': State)
    requires SavesOk(s)
    requires s'.saves == s.saves && s'.transcript == s.transcript && s'.attempts == s.attempts
    ensures SavesOk(s')
  {
  }

  lemma {:induction false} RunKeeps(events: seq<Event>)
    requires Feasible(events)
    ensures Inv(Run(events))
    ensures Run(events).attempts <= |events|
  {
    if events != [] {
      RunKeeps(events[..|events| - 1]);
      StepKeeps(Run(events[..|events| - 1]), events[|events| - 1]);
    }
  }

  // ----- When the log may go -----

  /** In every run and for any number and order of saves in flight, a delivered save drops the log
    exactly when it was written, the log is open and removable, and the number of appends attempted
    since its capture is a multiple of the counter's range: none at all in any run short enough. */
  lemma DropMeansNoAppendSinceCapture(events: seq<Event>, i: nat, removes: bool)
    requires Feasible(events) && Enabled(Run(events), Deliver(i, removes))
    ensures var s := Run(events);
            && s.saves[i].attempts <= s.attempts
            && (Drops(s, i, removes) <==>
                  s.saves[i].stage.ok && s.open && removes && (s.attempts - s.saves[i].attempts) % WORD == 0)
            && (|events| < WORD ==>
                  (Drops(s, i, removes) <==>
                     s.saves[i].stage.ok && s.open && removes && s.attempts == s.saves[i].attempts))
  {
    hide Run, Feasible;
    RunKeeps(events);
    var s := Run(events);
    CounterOfSave(s, i);
    hide Inv;
    SameRemainder(s.saves[i].attempts, s.attempts);
  }

  lemma CounterOfSave(s: State, i: nat)
    requires Inv(s) && i < |s.saves|
    ensures s.saves[i].attempts <= s.attempts
    ensures s.saves[i].seqNo == s.saves[i].attempts % WORD && s.walSeq == s.attempts % WORD
  {
  }

  lemma SameRemainder(a: nat, b: nat)
    requires a <= b
    ensures a % WORD == b % WORD <==> (b - a) % WORD == 0
    ensures b < WORD ==> (a % WORD == b % WORD <==> a == b)
  {
  }

  lemma SavesStayStep(s: State, e: Event, i: nat)
    requires Enabled(s, e) && i < |s.saves|
    ensures var s' := Step(s, e);
            i < |s'.saves| && s'.saves[i].attempts == s.saves[i].attempts && s'.attempts >= s.attempts
  {
  }

  lemma AttemptStep(s: State, e: Event)
    requires Inv(s) && Enabled(s, e) && e.Log?
    ensures var s' := Step(s, e);
            if s.open || e.opens then
              && s'.open && s'.log == s.log + (if e.appends then [e.position] else [])
              && s'.saves == s.saves && forall i :: 0 <= i < |s.saves| ==> s'.attempts > s.saves[i].attempts
            else s' == s
  {
    assert s.log + [] == s.log;
  }

  lemma NotDropped(s: State, i: nat, removes: bool)
    requires Enabled(s, Deliver(i, removes)) && !Drops(s, i, removes)
    ensures var s' := Step(s, Deliver(i, removes)); s'.open == s.open && s'.log == s.log
  {
  }

  /** Saves stay in place, with what they captured, and the count of attempts never falls. */
  lemma {:induction false} SavesStay(events: seq<Event>, k: nat, i: nat)
    requires Feasible(events) && k <= |events| && Feasible(events[..k]) && i < |Run(events[..k]).saves|
    ensures var (s, s') := (Run(events[..k]), Run(events));
            i < |s'.saves| && s'.saves[i].attempts == s.saves[i].attempts && s'.attempts >= s.attempts
    decreases |events|
  {
    hide Step, Enabled;
    if k == |events| {
      assert events[..k] == events;
    } else {
      var init := events[..|events| - 1];
      assert init[..k] == events[..k];
      SavesStay(init, k, i);
      SavesStayStep(Run(init), events[|events| - 1], i);
    }
  }

  lemma {:induction false} PrefixFeasible(events: seq<Event>, k: nat)
    requires Feasible(events) && k <= |events|
    ensures Feasible(events[..k]) && (k < |events| ==> Enabled(Run(events[..k]), events[k]))
    decreases |events|
  {
    hide Step, Enabled;
    if k == |events| {
      assert events[..k] == events;
    } else if k < |events| - 1 {
      PrefixFeasible(events[..|events| - 1], k);
      assert events[..|events| - 1][..k] == events[..k];
    }
  }

  /** An append that was attempted on an open log, even one that failed, keeps the log from every save
    captured before it, however much later the save is delivered.  One with no log to append to does
    nothing. */
  lemma AttemptProtectsTheLog(events: seq<Event>, k: nat, i: nat, removes: bool)
    requires Feasible(events) && k < |events| < WORD && events[k].Log?
    requires Enabled(Run(events), Deliver(i, removes))
    ensures Feasible(events[..k]) && Feasible(events[..k + 1])
    ensures var (s, after, later) := (Run(events[..k]), Run(events[..k + 1]), Run(events));
            if s.open || events[k].opens then
              && after.open
              && after.log == s.log + (if events[k].appends then [events[k].position] else [])
              && (i < |s.saves| ==>
                    && Step(later, Deliver(i, removes)).open == later.open
                    && Step(later, Deliver(i, removes)).log == later.log)
            else after == s
  {
    hide Step, Inv;
    PrefixFeasible(events, k);
    PrefixFeasible(events, k + 1);
    assert events[..k + 1][..k] == events[..k];
    var s := Run(events[..k]);
    RunKeeps(events[..k]);
    AttemptStep(s, events[k]);
    hide Run, Feasible;
    if (s.open || events[k].opens) && i < |s.saves| {
      SavesStay(events, k + 1, i);
      DropMeansNoAppendSinceCapture(events, i, removes);
      NotDropped(Run(events), i, removes);
    }
  }

  // ----- Exactly when durability survives -----

  /** Checked before an event: a write must not be shorter than what already left the log, and the
    log may go only when everything in it is on disk, which for a save at once means that the
    transcript holds everything in it. */
  predicate Guarded(s: State, e: Event)
    requires Enabled(s, e)
  {
    match e
    case Write(i, ok) => ok ==> s.mark <= |s.saves[i].snapshot|
    case Deliver(i, removes) => Drops(s, i, removes) ==> Top(s.log) <= |s.disk|
    case SaveNow(ok, removes) =>
      ok && removes && s.open && s.transcript != [] ==> Top(s.log) <= |s.transcript|
    case _ => true
  }

  lemma DurableIsMark(s: State)
    requires Inv(s)
    ensures Durable(s) <==> s.mark <= |s.disk|
  {
  }

  /** One step keeps durability exactly when its guard holds. */
  lemma DurableStep(s: State, e: Event)
    requires Inv(s) && Durable(s) && Enabled(s, e)
    ensures Durable(Step(s, e)) <==> Guarded(s, e)
  {
    StepKeeps(s, e);
    DurableIsMark(s);
    DurableIsMark(Step(s, e));
  }

  /** Durable after every step of the run. */
  ghost predicate AlwaysDurable(events: seq<Event>)
    requires Feasible(events)
  {
    events == [] || (AlwaysDurable(events[..|events| - 1]) && Durable(Run(events)))
  }

  /** Guarded at every step of the run. */
  ghost predicate AlwaysGuarded(events: seq<Event>)
    requires Feasible(events)
  {
    events == [] ||
    (AlwaysGuarded(events[..|events| - 1]) && Guarded(Run(events[..|events| - 1]), events[|events| - 1]))
  }

  /** A whole run is durable throughout exactly when every one of its steps was guarded. */
  lemma {:induction false} DurableThroughout(events: seq<Event>)
    requires Feasible(events)
    ensures AlwaysDurable(events) <==> AlwaysGuarded(events)
    ensures AlwaysDurable(events) ==> Durable(Run(events))
  {
    if events != [] {
      var init := events[..|events| - 1];
      DurableThroughout(init);
      RunKeeps(init);
      if Durable(Run(init)) {
        DurableStep(Run(init), events[|events| - 1]);
      }
    }
  }

  // ----- Snapshots in the order captured, messages logged after they are in the transcript -----

  ghost predicate WrittenOk(save: Save) {
    save.stage == Done(true) || save.stage == Delivered(true)
  }

  /** A save reaches the disk only while no save captured later has reached it. */
  ghost predicate InOrder(s: State, e: Event) {
    e.Write? && e.ok ==> forall j :: e.index < j < |s.saves| ==> !WrittenOk(s.saves[j])
  }

  ghost predicate Ordered(events: seq<Event>)
    requires Feasible(events)
  {
    events == [] || (Ordered(events[..|events| - 1]) && InOrder(Run(events[..|events| - 1]), events[|events| - 1]))
  }

  /** Each message is in the transcript when it is logged. */
  predicate LoggedLate(events: seq<Event>)
    requires Feasible(events)
  {
    events == [] ||
    var (init, e) := (events[..|events| - 1], events[|events| - 1]);
    LoggedLate(init) && (e.Log? ==> e.position < |Run(init).transcript|)
  }

  /** What was appended is in the transcript, and in every snapshot captured since. */
  ghost predicate Covered(s: State) {
    && (forall p :: p in s.appended ==> p < |s.transcript|)
    && (forall i :: 0 <= i < |s.saves| && s.saves[i].attempts == s.attempts ==>
          forall p :: p in s.appended ==> p < |s.saves[i].snapshot|)
  }

  /** The disk holds the newest snapshot written, and what left the log is in a written snapshot. */
  ghost predicate Newest(s: State) {
    && (forall i :: 0 <= i < |s.saves| && WrittenOk(s.saves[i]) ==> |s.saves[i].snapshot| <= |s.disk|)
    && (s.mark > 0 ==> exists i :: 0 <= i < |s.saves| && WrittenOk(s.saves[i]) && s.mark <= |s.saves[i].snapshot|)
  }

  lemma CoveredStep(s: State, e: Event)
    requires Inv(s) && Covered(s) && Enabled(s, e) && (e.Log? ==> e.position < |s.transcript|)
    ensures Covered(Step(s, e))
  {
  }

  lemma CoveredTop(s: State)
    requires Inv(s) && Covered(s)
    ensures Top(s.log) <= |s.transcript|
    ensures forall i :: 0 <= i < |s.saves| && s.saves[i].attempts == s.attempts ==> Top(s.log) <= |s.saves[i].snapshot|
  {
  }

  lemma WriteInOrder(s: State, i: nat, ok: bool)
    requires Inv(s) && Newest(s) && Enabled(s, Write(i, ok)) && InOrder(s, Write(i, ok))
    ensures Newest(WriteSave(s, i, ok)) && Guarded(s, Write(i, ok))
  {
    var s' := WriteSave(s, i, ok);
    if s.mark > 0 {
      var j :| 0 <= j < |s.saves| && WrittenOk(s.saves[j]) && s.mark <= |s.saves[j].snapshot|;
      assert j != i && s'.saves[j] == s.saves[j];
    }
  }

  lemma DeliverInOrder(s: State, i: nat, removes: bool)
    requires Inv(s) && Covered(s) && Newest(s) && Enabled(s, Deliver(i, removes)) && s.attempts < WORD
    ensures Newest(DeliverSave(s, i, removes)) && Guarded(s, Deliver(i, removes))
  {
    var s' := DeliverSave(s, i, removes);
    CounterOfSave(s, i);
    SameRemainder(s.saves[i].attempts, s.attempts);
    CoveredTop(s);
    if Drops(s, i, removes) {
      assert WrittenOk(s'.saves[i]) && s'.saves[i].snapshot == s.saves[i].snapshot;
      assert Top(s.log) <= |s.saves[i].snapshot|;
    }
    if s.mark > 0 {
      var j :| 0 <= j < |s.saves| && WrittenOk(s.saves[j]) && s.mark <= |s.saves[j].snapshot|;
      assert WrittenOk(s'.saves[j]) && s'.saves[j].snapshot == s.saves[j].snapshot;
    }
  }

  lemma SaveNowInOrder(s: State, ok: bool, removes: bool)
    requires Inv(s) && Covered(s) && Newest(s)
    ensures Newest(SaveAtOnce(s, ok, removes)) && Guarded(s, SaveNow(ok, removes))
  {
    var s' := SaveAtOnce(s, ok, removes);
    CoveredTop(s);
    if s.transcript != [] {
      var n := |s.saves|;
      assert s'.saves[n].snapshot == s.transcript;
      if s.mark > 0 {
        var j :| 0 <= j < |s.saves| && WrittenOk(s.saves[j]) && s.mark <= |s.saves[j].snapshot|;
        assert s'.saves[j] == s.saves[j];
      }
    }
  }

  lemma CaptureInOrder(s: State)
    requires Newest(s)
    ensures Newest(CaptureSave(s))
  {
    if s.mark > 0 {
      var j :| 0 <= j < |s.saves| && WrittenOk(s.saves[j]) && s.mark <= |s.saves[j].snapshot|;
      assert s.transcript != [] ==> CaptureSave(s).saves[j] == s.saves[j];
    }
  }

  /** If snapshots reach the disk in the order captured, and each message is in the transcript when it
    is logged, every run is durable throughout: across failed appends and saves, late results, refused
    removals and re-created logs. */
  lemma {:induction false} OrderedRunsAreDurable(events: seq<Event>)
    requires Feasible(events) && Ordered(events) && LoggedLate(events) && |events| < WORD
    ensures AlwaysDurable(events) && Durable(Run(events)) && Newest(Run(events))
  {
    OrderedRunsAreGuarded(events);
    DurableThroughout(events);
    if events == [] {
      assert Durable(INITIAL);
    }
  }

  lemma {:induction false} OrderedRunsAreGuarded(events: seq<Event>)
    requires Feasible(events) && Ordered(events) && LoggedLate(events) && |events| < WORD
    ensures AlwaysGuarded(events) && Newest(Run(events)) && Covered(Run(events))
  {
    if events != [] {
      var (init, e) := (events[..|events| - 1], events[|events| - 1]);
      OrderedRunsAreGuarded(init);
      RunKeeps(init);
      var s := Run(init);
      hide Inv, Covered, Newest, Run;
      CoveredStep(s, e);
      StepNewest(s, e);
    }
  }

  lemma StepNewest(s: State, e: Event)
    requires Inv(s) && Covered(s) && Newest(s) && Enabled(s, e) && InOrder(s, e) && s.attempts < WORD
    ensures Newest(Step(s, e)) && Guarded(s, e)
  {
    match e
    case Write(i, ok) => WriteInOrder(s, i, ok);
    case Deliver(i, removes) => DeliverInOrder(s, i, removes);
    case SaveNow(ok, removes) => SaveNowInOrder(s, ok, removes);
    case Capture => CaptureInOrder(s);
    case _ =>
  }

  /** What durability means for the user: the message itself is in the log or in the saved file. */
  lemma LoggedMessageSurvives(events: seq<Event>, p: nat)
    requires Feasible(events) && Ordered(events) && LoggedLate(events) && |events| < WORD
    requires p in Run(events).appended
    ensures var s := Run(events);
            p < |s.transcript| && (p in s.log || (p < |s.disk| && s.disk[p] == s.transcript[p]))
  {
    OrderedRunsAreGuarded(events);
    OrderedRunsAreDurable(events);
    RunKeeps(events);
  }

  // ----- A message logged before the transcript holds it -----

  /** The result of a tool is logged, and the user quits before the transcript has it. */
  const EARLY_RESULT: seq<Event> :=
    [Grow([HELLO]), Log(0, true, true), Log(1, true, true), SaveNow(true, true)]

  const EARLY_LOGGED := State([HELLO], true, [0, 1], 2, [], [], [0, 1], 2, 0)

  lemma ResultLoggedEarly()
    ensures Feasible(EARLY_RESULT[..3]) && Run(EARLY_RESULT[..3]) == EARLY_LOGGED && !LoggedLate(EARLY_RESULT[..3])
  {
    hide Run, Feasible;
    Empty(EARLY_RESULT);
    var s1 := INITIAL.(transcript := [HELLO]);
    var s2 := State([HELLO], true, [0], 1, [], [], [0], 1, 0);
    Extends(EARLY_RESULT, 0, INITIAL);
    Extends(EARLY_RESULT, 1, s1);
    Extends(EARLY_RESULT, 2, s2);
    assert EARLY_RESULT[..3][..2] == EARLY_RESULT[..2];
  }

  /** Durability needs that as well: the save at quit writes the transcript without the result and
    drops the log with it, although every snapshot was written in order. */
  lemma EarlyResultIsLost()
    ensures Feasible(EARLY_RESULT) && Ordered(EARLY_RESULT) && !LoggedLate(EARLY_RESULT)
    ensures !Durable(Run(EARLY_RESULT))
    ensures var s := Run(EARLY_RESULT); 1 in s.appended && s.log == [] && s.disk == [HELLO]
  {
    hide Run, Feasible, Ordered;
    ResultLoggedEarly();
    Extends(EARLY_RESULT, 3, EARLY_LOGGED);
    assert EARLY_RESULT[..4] == EARLY_RESULT;
    var t := Step(EARLY_LOGGED, SaveNow(true, true));
    assert 1 in t.appended && t.log == [] && t.disk == [HELLO];
    NoWriteIsOrdered(EARLY_RESULT);
  }

  lemma {:induction false} NoWriteIsOrdered(events: seq<Event>)
    requires Feasible(events) && forall e :: e in events ==> !e.Write?
    ensures Ordered(events)
  {
    if events != [] {
      NoWriteIsOrdered(events[..|events| - 1]);
    }
  }

  // ----- Snapshots out of order -----

  const HELLO := Message("user", "hello")
  const AGAIN := Message("user", "again")

  /** Two saves in flight; the newer is written and delivered, and the log is dropped. */
  const NEWER_FIRST: seq<Event> :=
    [Grow([HELLO]), Log(0, true, true), Capture, Grow([AGAIN]), Log(1, true, true), Capture,
     Write(1, true), Deliver(1, true)]

  const OLDER := Save([HELLO], 1, 1, Pending)
  const NEWER := Save([HELLO, AGAIN], 2, 2, Pending)
  const BOTH_IN_FLIGHT := State([HELLO, AGAIN], true, [0, 1], 2, [], [OLDER, NEWER], [0, 1], 2, 0)
  const LOG_GONE :=
    State([HELLO, AGAIN], false, [], 2, [HELLO, AGAIN], [OLDER, NEWER.(stage := Delivered(true))], [0, 1], 2, 2)

  lemma BothSavesInFlight()
    ensures Feasible(NEWER_FIRST[..6]) && Run(NEWER_FIRST[..6]) == BOTH_IN_FLIGHT
  {
    hide Run, Feasible;
    Empty(NEWER_FIRST);
    var s1 := INITIAL.(transcript := [HELLO]);
    var s2 := State([HELLO], true, [0], 1, [], [], [0], 1, 0);
    var s3 := s2.(saves := [OLDER]);
    var s4 := s3.(transcript := [HELLO, AGAIN]);
    Extends(NEWER_FIRST, 0, INITIAL);
    Extends(NEWER_FIRST, 1, s1);
    Extends(NEWER_FIRST, 2, s2);
    Extends(NEWER_FIRST, 3, s3);
    Extends(NEWER_FIRST, 4, s4);
    Extends(NEWER_FIRST, 5, s4.(log := [0, 1], walSeq := 2, appended := [0, 1], attempts := 2));
  }

  lemma NewerWrittenAndDelivered()
    ensures Feasible(NEWER_FIRST) && Run(NEWER_FIRST) == LOG_GONE
  {
    hide Run, Feasible;
    BothSavesInFlight();
    var s7 := BOTH_IN_FLIGHT.(disk := [HELLO, AGAIN], saves := [OLDER, NEWER.(stage := Done(true))]);
    Extends(NEWER_FIRST, 6, BOTH_IN_FLIGHT);
    Extends(NEWER_FIRST, 7, s7);
    assert Top([0, 1]) == 2;
    assert NEWER_FIRST[..8] == NEWER_FIRST;
  }

  /** Durability needs the order: the older save then overwrites the file, and the second message,
    which was logged successfully, is neither in the log nor on disk. */
  lemma OlderSaveLastLosesAMessage()
    ensures Feasible(NEWER_FIRST) && Durable(Run(NEWER_FIRST))
    ensures Enabled(Run(NEWER_FIRST), Write(0, true))
    ensures !Durable(Step(Run(NEWER_FIRST), Write(0, true)))
  {
    hide Run, Feasible;
    NewerWrittenAndDelivered();
    var t := Step(LOG_GONE, Write(0, true));
    assert 1 in t.appended && t.disk == [HELLO];
  }

  lemma Empty(events: seq<Event>)
    ensures Feasible(events[..0]) && Run(events[..0]) == INITIAL
  {
  }

  /** One more event of a run. */
  lemma Extends(events: seq<Event>, n: nat, s: State)
    requires n < |events| && Feasible(events[..n]) && Run(events[..n]) == s && Enabled(s, events[n])
    ensures Feasible(events[..n + 1]) && Run(events[..n + 1]) == Step(s, events[n])
  {
    assert events[..n + 1][..n] == events[..n];
  }
}
