/** What holds of the prompt scheduler after every run: any sequence of arrivals, keys, timers,
  teardowns, channel reads and autonomy changes, in any order. */
module PromptRuns {
  import opened Wrappers
  import opened PromptState
  import opened PromptInvariants

  // ----- Safety -----

  lemma {:induction false} RunKeeps(autonomous: bool, events: seq<Event>)
    requires Feasible(Initial(autonomous), events)
    ensures Inv(Run(Initial(autonomous), events))
  {
    hide Inv, Step;
    if events == [] {
      InitialInv(autonomous);
    } else {
      RunKeeps(autonomous, events[..|events| - 1]);
      StepKeeps(Run(Initial(autonomous), events[..|events| - 1]), events[|events| - 1]);
    }
  }

  /** One keyboard, one prompt; bounded queues; and no request waits behind a free screen. */
  lemma OnePromptAndNoIdleWaiting(autonomous: bool, events: seq<Event>, j: Kind, k: Kind)
    requires Feasible(Initial(autonomous), events)
    ensures var s := Run(Initial(autonomous), events);
            && (LaneOf(s, j).active.Some? && LaneOf(s, k).active.Some? ==> j == k)
            && |LaneOf(s, k).queue| <= 32
            && ((forall i :: LaneOf(s, i).active.None?) ==> LaneOf(s, k).queue == [])
  {
    hide Run, Feasible;
    RunKeeps(autonomous, events);
    var s := Run(Initial(autonomous), events);
    assert LaneOk(LaneOf(s, k), k);
    BusyMeansActive(s);
  }

  /** Exactly once: a request that arrived is on screen, in a queue or answered, in one place only
    and one time only; and its one answer reached the requester's channel if there is a channel. */
  lemma EveryRequestInOnePlace(autonomous: bool, events: seq<Event>, r: Request)
    requires Feasible(Initial(autonomous), events)
    requires r in Run(Initial(autonomous), events).arrived
    ensures var s := Run(Initial(autonomous), events);
            && Live(s)[r] + multiset(Requests(s.answers))[r] == 1
            && (forall i :: 0 <= i < |s.answers| && s.answers[i].req == r ==> (s.answers[i].delivered <==> r.slot))
            && (r.kind != Permission ==> r.slot)
  {
    hide Run, Feasible, Live;
    RunKeeps(autonomous, events);
    var s := Run(Initial(autonomous), events);
    UniqueMeansOnce(s.arrived, r);
    assert r in multiset(s.arrived);
  }

  /** The "prompt expired" branches are unreachable on a one-slot channel: whenever a prompt is on
    screen, its channel is still empty. */
  lemma SendOnScreenSucceeds(autonomous: bool, events: seq<Event>, k: Kind)
    requires Feasible(Initial(autonomous), events)
    requires LaneOf(Run(Initial(autonomous), events), k).active.Some?
    ensures var s := Run(Initial(autonomous), events);
            && (CanDeliver(s, LaneOf(s, k).active.value) <==> LaneOf(s, k).active.value.slot)
            && (k != Permission ==> CanDeliver(s, LaneOf(s, k).active.value))
  {
    hide Run, Feasible;
    RunKeeps(autonomous, events);
    var s := Run(Initial(autonomous), events);
    var r := LaneOf(s, k).active.value;
    ResolveKeeps(s, k, Denial(k, ""));
    assert r in LiveIn(LaneOf(s, k));
    assert r in Live(s);
    LiveIsUnanswered(s, r);
    assert LaneOk(LaneOf(s, k), k);
    assert r == Shown(LaneOf(s, k).left)[LaneOf(s, k).seqNo - 1];
    ShownKinds(LaneOf(s, k), k, LaneOf(s, k).left);
  }

  lemma {:induction false} ShownKinds(l: Lane, k: Kind, left: seq<Departure>)
    requires LaneOk(l, k) && left <= l.left
    ensures forall r :: r in Shown(left) ==> r in l.accepted && r.kind == k
  {
    if left != [] {
      ShownKinds(l, k, left[..|left| - 1]);
      assert Gone(l.left)[|left| - 1] == left[|left| - 1].req;
      assert l.accepted[|left| - 1] == left[|left| - 1].req;
    }
  }

  // ----- Timers -----

  /** A prompt on screen has exactly one timeout of its own and exactly one current tick in flight,
    and the timer numbered `n` belongs to the `n`-th prompt shown. */
  lemma TimersMatchTheScreen(autonomous: bool, events: seq<Event>, k: Kind)
    requires Feasible(Initial(autonomous), events)
    ensures var s := Run(Initial(autonomous), events);
            var l := LaneOf(s, k);
            && |Shown(l.left)| == l.seqNo
            && (forall n: nat :: Timeout(k, n) in s.inflight ==> n <= l.seqNo)
            && (l.active.Some? ==>
                  && l.seqNo > 0 && Shown(l.left)[l.seqNo - 1] == l.active.value
                  && s.inflight[Timeout(k, l.seqNo)] == 1 && s.inflight[Tick(s.generation)] == 1)
  {
    hide Run, Feasible;
    RunKeeps(autonomous, events);
    var s := Run(Initial(autonomous), events);
    assert LaneOk(LaneOf(s, k), k);
    assert s.inflight[Timeout(k, LaneOf(s, k).seqNo)] <= 1 && s.inflight[Tick(s.generation)] <= 1;
  }

  lemma LastShown(s: State, k: Kind)
    requires Inv(s) && LaneOf(s, k).active.Some?
    ensures var l := LaneOf(s, k);
            0 < l.seqNo == |Shown(l.left)| && Shown(l.left)[l.seqNo - 1] == l.active.value
  {
    assert LaneOk(LaneOf(s, k), k);
  }

  lemma BaseLanes(s: State, k: Kind)
    requires Base(s)
    ensures LanesOk(s)
    ensures LaneOf(s, k).active.Some? ==> LanesOk(Resolve(s, k, Denial(k, "timed out")))
  {
    hide LaneOk, Live, LiveIn, ChannelsOk, RulesBacked, TimersBounded, TimersLive, Conserved, Exclusive;
    if LaneOf(s, k).active.Some? {
      ResolveKeeps(s, k, Denial(k, "timed out"));
    }
  }

  /** A timeout resolves at most the prompt whose activation armed it, and resolves it by refusal;
    whatever else it causes is the Autonomous drain of waiting permission requests. */
  lemma TimeoutHitsItsOwnPrompt(s: State, k: Kind, n: nat)
    requires Inv(s) && Timeout(k, n) in s.inflight
    ensures var s' := Step(s, Fires(Timeout(k, n)));
            s'.answers == s.answers ||
            (&& 0 < n <= |Shown(LaneOf(s, k).left)|
             && LaneOf(s, k).active == Some(Shown(LaneOf(s, k).left)[n - 1])
             && OnlyAutoAllows(s.autonomous, s.permission.queue,
                  s.answers + [Answered(Shown(LaneOf(s, k).left)[n - 1], Denial(k, "timed out"),
                                        CanDeliver(s, Shown(LaneOf(s, k).left)[n - 1]))],
                  s'.answers))
  {
    hide NextPrompt, OnlyAutoAllows, Base, TimersLive;
    var s1 := s.(inflight := s.inflight - multiset{Timeout(k, n)});
    var l := LaneOf(s1, k);
    assert l == LaneOf(s, k);
    if l.active.Some? && l.seqNo == n {
      LastShown(s, k);
      DisarmKeeps(s, Timeout(k, n));
      BaseLanes(s1, k);
      ResolveKeeps(s1, k, Denial(k, "timed out"));
      NextFrame(Resolve(s1, k, Denial(k, "timed out")));
    }
  }

  // ----- What one step appends -----

  /** `after` extends `before`, and only by Autonomous allows of waiting permission requests. */
  ghost predicate OnlyAutoAllows(autonomous: bool, waiting: seq<Request>, before: seq<Answered>, after: seq<Answered>) {
    && before <= after
    && (!autonomous ==> after == before)
    && forall i :: |before| <= i < |after| ==>
         after[i].req.kind == Permission && after[i].reply == Permit(true) && after[i].req in waiting
  }

  lemma ShowFrame(s: State, k: Kind)
    requires LaneOf(s, k).queue != []
    ensures var t := Promote(s, k);
            && t.answers == s.answers && t.arrived == s.arrived && t.rules == s.rules
            && forall j :: LaneOf(t, j).accepted == LaneOf(s, j).accepted
  {
  }

  lemma AutoAllowFrame(s: State)
    requires LanesOk(s) && s.permission.queue != [] && s.approval.queue == []
    ensures var t := AutoAllow(Pop(s, Permission), s.permission.queue[0]);
            && LanesOk(t) && t.arrived == s.arrived && t.rules == s.rules && t.autonomous == s.autonomous
            && (forall j :: LaneOf(t, j).accepted == LaneOf(s, j).accepted)
            && s.permission.queue[0].kind == Permission
            && t.answers
               == s.answers + [Answered(s.permission.queue[0], Permit(true), CanDeliver(s, s.permission.queue[0]))]
  {
    var l, t := s.permission, AutoAllow(Pop(s, Permission), s.permission.queue[0]);
    assert l == LaneOf(s, Permission) && LaneOk(l, Permission);
    assert l.queue[0] == l.accepted[|l.left|];
    hide LaneOk, Live, LiveIn, Shown;
    LeaveLane(l, Permission, AutoAllowed);
    ReplaceLanes(s, t, Permission, t.permission);
  }

  /** The drain touches neither the arrivals nor the rules. */
  lemma {:induction false} NextFrame(s: State)
    requires LanesOk(s)
    ensures OnlyAutoAllows(s.autonomous, s.permission.queue, s.answers, NextPrompt(s).answers)
    ensures NextPrompt(s).arrived == s.arrived && NextPrompt(s).rules == s.rules
    ensures forall k :: LaneOf(NextPrompt(s), k).accepted == LaneOf(s, k).accepted
    decreases |s.permission.queue|
  {
    hide LanesOk, Show, AutoAllow;
    if Busy(s) {
    } else if s.approval.queue != [] {
      ShowFrame(s, Approval);
    } else if s.permission.queue != [] {
      ShowFrame(s, Permission);
      AutoAllowFrame(s);
      if s.autonomous {
        var t := AutoAllow(Pop(s, Permission), s.permission.queue[0]);
        assert t.permission.queue == s.permission.queue[1..] by { AutoAllowShrinks(s); }
        NextFrame(t);
      }
    } else if s.credential.queue != [] {
      ShowFrame(s, Credential);
    } else if s.question.queue != [] {
      ShowFrame(s, Question);
    }
  }

  lemma AutoAllowShrinks(s: State)
    requires s.permission.queue != []
    ensures AutoAllow(Pop(s, Permission), s.permission.queue[0]).permission.queue == s.permission.queue[1..]
  {
  }

  /** The reply that refuses `r`. */
  predicate Refuses(r: Request, reply: Reply) {
    match r.kind
    case Approval => reply == Verdict(Reject)
    case Permission => reply == Permit(false)
    case Credential => reply.Access? && !reply.approved
    case Question => reply == Text("")
  }

  /** What each key may grant to the request on screen, and how far the grant reaches. */
  predicate GrantingKey(k: Kind, key: Key, w: Surroundings, reply: Reply) {
    match k
    case Approval =>
      || (reply == Verdict(Approve) && key in {Rune('y'), Rune('Y')})
      || (reply == Verdict(ApproveForSession) && key in {Rune('s'), Rune('S'), Rune('a'), Rune('A')})
      || (reply == Verdict(ApproveForN) && key == Rune('5'))
    case Permission =>
      && reply == Permit(true)
      && (|| key in {Rune('y'), Rune('Y'), Rune('s'), Rune('S'), Rune('a'), Rune('A')}
          || (key in {Rune('p'), Rune('P')} && w.configured && w.projectSaves))
    case Credential => reply == Access(true, "") && key in {Rune('y'), Rune('Y')}
    case Question => reply == Text(w.typed) && key == Enter
  }

  /** The only two ways to a grant: the key that gives this very grant, pressed while the request is on
    screen (and for a project-wide allow, with the rule stored), or, in Autonomous mode, a permission
    request that is not on screen, at a moment that is neither a teardown nor an overflowing arrival. */
  ghost predicate Licensed(s: State, e: Event, s': State, a: Answered) {
    || (&& e.Press? && GrantingKey(a.req.kind, e.key, e.world, a.reply)
        && LaneOf(s, a.req.kind).active == Some(a.req)
        && (a.req.kind == Permission && e.key in {Rune('p'), Rune('P')}
            ==> Project(a.req.tool, a.req.identity, true) in s'.rules))
    || (&& a.req.kind == Permission && s.autonomous && a.reply == Permit(true)
        && s.permission.active != Some(a.req) && !e.TearDown? && (e.Ask? ==> !Busy(s)))
  }

  ghost predicate FailsClosed(s: State, e: Event, s': State) {
    && s.answers <= s'.answers
    && forall i :: |s.answers| <= i < |s'.answers| ==>
         Refuses(s'.answers[i].req, s'.answers[i].reply) || Licensed(s, e, s', s'.answers[i])
  }

  lemma ActiveKind(s: State, k: Kind)
    requires LanesOk(s) && LaneOf(s, k).active.Some?
    ensures LaneOf(s, k).active.value.kind == k
  {
    assert LaneOk(LaneOf(s, k), k);
    ShownKinds(LaneOf(s, k), k, LaneOf(s, k).left);
  }

  /** After resolving the active prompt of kind `k`, the rest of the step is the drain. */
  lemma ResolveThenDrain(s: State, e: Event, k: Kind, reply: Reply, t: State)
    requires LanesOk(s) && LaneOf(s, k).active.Some? && LanesOk(t) && t.autonomous == s.autonomous
    requires Conserved(s) && t.permission.queue == s.permission.queue && e.Press?
    requires var r := LaneOf(s, k).active.value;
             t.answers == s.answers + [Answered(r, reply, CanDeliver(s, r))]
    requires Refuses(LaneOf(s, k).active.value, reply) || Licensed(s, e, t, t.answers[|s.answers|])
    ensures FailsClosed(s, e, NextPrompt(t))
  {
    hide NextPrompt, LaneOk, LanesOk, Conserved;
    NextFrame(t);
    ActiveNotWaiting(s);
    var s' := NextPrompt(t);
    assert s'.answers[|s.answers|] == t.answers[|s.answers|];
  }

  lemma ActiveNotWaiting(s: State)
    requires Conserved(s)
    ensures s.permission.active.Some? ==> s.permission.active.value !in s.permission.queue
  {
    if s.permission.active.Some? {
      var r := s.permission.active.value;
      assert r in LiveIn(s.permission) && r in Live(s);
      LiveIsUnanswered(s, r);
      UniqueMeansOnce(s.arrived, r);
      assert r in s.permission.queue ==> multiset(s.permission.queue)[r] >= 1;
    }
  }

  lemma PermissionKeyFailsClosed(s: State, key: Key, w: Surroundings)
    requires Inv(s) && s.permission.active.Some?
    ensures FailsClosed(s, Press(key, w), PermissionKey(s, key, w))
  {
    hide NextPrompt, Base, TimersLive, FailsClosed, LaneOk, PermissionChoice;
    var c, e := PermissionChoice(s, key, w), Press(key, w);
    assert LaneOf(s, Permission).active == Some(s.permission.active.value);
    CoreLanes(s);
    CoreConserved(s);
    ActiveKind(s, Permission);
    NoAnswerFailsClosed(s, e);
    if c.Decide? {
      ChoiceAddsExactRules(s, key, w);
      ApplyKeeps(s, key, w);
      CoreLanes(Apply(s, c));
      NextFrame(Apply(s, c));
      ResolveThenDrain(s, e, Permission, Permit(c.allow), Apply(s, c));
    }
  }

  lemma CoreConserved(s: State)
    requires Core(s)
    ensures Conserved(s)
  {
  }

  lemma CoreLanes(s: State)
    requires Core(s)
    ensures LanesOk(s)
  {
  }

  lemma NoAnswerFailsClosed(s: State, e: Event)
    requires LanesOk(s)
    ensures FailsClosed(s, e, s)
    ensures Busy(s) ==> NextPrompt(s) == s
  {
  }

  lemma ResolveFailsClosed(s: State, key: Key, w: Surroundings, k: Kind, reply: Reply)
    requires Inv(s) && LaneOf(s, k).active.Some? && k != Permission
    requires Refuses(LaneOf(s, k).active.value, reply) || GrantingKey(k, key, w, reply)
    ensures FailsClosed(s, Press(key, w), NextPrompt(Resolve(s, k, reply)))
  {
    hide NextPrompt, Base, TimersLive, FailsClosed, LaneOk, Conserved;
    var t := Resolve(s, k, reply);
    CoreLanes(s);
    CoreConserved(s);
    ActiveKind(s, k);
    CoreResolve(s, k, reply);
    CoreLanes(t);
    ResolveThenDrain(s, Press(key, w), k, reply, t);
  }

  lemma KeyFailsClosed(s: State, key: Key, w: Surroundings)
    requires Inv(s)
    ensures FailsClosed(s, Press(key, w), HandleKey(s, key, w))
  {
    hide NextPrompt, Base, TimersLive, FailsClosed, LaneOk, PermissionKey, Resolve;
    CoreLanes(s);
    NoAnswerFailsClosed(s, Press(key, w));
    if s.permission.active.Some? {
      PermissionKeyFailsClosed(s, key, w);
    }
    forall k, reply | LaneOf(s, k).active.Some? && k != Permission
                      && (Refuses(LaneOf(s, k).active.value, reply) || GrantingKey(k, key, w, reply))
      ensures FailsClosed(s, Press(key, w), NextPrompt(Resolve(s, k, reply)))
    {
      ResolveFailsClosed(s, key, w, k, reply);
    }
    if s.approval.active.Some? {
      ActiveKind(s, Approval);
      assert LaneOf(s, Approval).active.Some?;
    } else if s.credential.active.Some? {
      ActiveKind(s, Credential);
      assert LaneOf(s, Credential).active.Some?;
    } else if s.question.active.Some? {
      ActiveKind(s, Question);
      assert LaneOf(s, Question).active.Some?;
    }
  }

  /** Only refusals are appended. */
  ghost predicate OnlyRefusals(before: seq<Answered>, after: seq<Answered>) {
    before <= after && forall i :: |before| <= i < |after| ==> Refuses(after[i].req, after[i].reply)
  }

  lemma RefusalsChain(a: seq<Answered>, b: seq<Answered>, c: seq<Answered>)
    requires OnlyRefusals(a, b) && OnlyRefusals(b, c)
    ensures OnlyRefusals(a, c)
  {
  }

  lemma {:induction false} DenyQueueRefuses(s: State, k: Kind)
    requires Core(s)
    ensures OnlyRefusals(s.answers, DenyQueue(s, k).answers)
    decreases |LaneOf(s, k).queue|
  {
    hide Base, TimersLive, LaneOk;
    if LaneOf(s, k).queue != [] {
      var l := LaneOf(s, k);
      QueueKind(s, k);
      DropHeadKeeps(s, k);
      DenyQueueRefuses(DropHead(s, k), k);
      RefusalsChain(s.answers, DropHead(s, k).answers, DenyQueue(s, k).answers);
    }
  }

  lemma QueueKind(s: State, k: Kind)
    requires Core(s) && LaneOf(s, k).queue != []
    ensures LaneOf(s, k).queue[0].kind == k
  {
    var l := LaneOf(s, k);
    assert LaneOk(l, k);
    assert l.queue[0] == l.accepted[|l.left|];
  }

  lemma DenyActiveRefuses(s: State, k: Kind, reason: string)
    requires Core(s)
    ensures OnlyRefusals(s.answers, DenyActive(s, k, reason).answers)
  {
    hide Base, TimersLive, LaneOk;
    CoreLanes(s);
    if LaneOf(s, k).active.Some? {
      ActiveKind(s, k);
    }
  }

  /** A teardown refuses everything it answers. */
  lemma TeardownRefuses(s: State, reason: string)
    requires Core(s)
    ensures OnlyRefusals(s.answers, Teardown(s, reason).answers)
  {
    hide Core, OnlyRefusals, DenyQueue, DenyActive;
    var a := DenyActive(s, Permission, reason);
    DenyActiveKeeps(s, Permission, reason);
    DenyActiveRefuses(s, Permission, reason);
    var b := DenyQueue(a, Permission);
    DenyQueueKeeps(a, Permission);
    DenyQueueRefuses(a, Permission);
    var c := DenyActive(b, Approval, reason);
    DenyActiveKeeps(b, Approval, reason);
    DenyActiveRefuses(b, Approval, reason);
    var d := DenyQueue(c, Approval);
    DenyQueueKeeps(c, Approval);
    DenyQueueRefuses(c, Approval);
    var f := DenyQueue(d, Question);
    DenyQueueKeeps(d, Question);
    DenyQueueRefuses(d, Question);
    var g := DenyQueue(f, Credential);
    DenyQueueKeeps(f, Credential);
    DenyQueueRefuses(f, Credential);
    var h := DenyActive(g, Question, reason);
    DenyActiveKeeps(g, Question, reason);
    DenyActiveRefuses(g, Question, reason);
    DenyActiveRefuses(h, Credential, reason);
    RefusalsChain(s.answers, a.answers, b.answers);
    RefusalsChain(s.answers, b.answers, c.answers);
    RefusalsChain(s.answers, c.answers, d.answers);
    RefusalsChain(s.answers, d.answers, f.answers);
    RefusalsChain(s.answers, f.answers, g.answers);
    RefusalsChain(s.answers, g.answers, h.answers);
    RefusalsChain(s.answers, h.answers, Teardown(s, reason).answers);
  }

  /** Every answer a step sends is a refusal or is licensed by what the user did or chose. */
  lemma StepFailsClosed(s: State, e: Event)
    requires Inv(s) && Enabled(s, e)
    ensures FailsClosed(s, e, Step(s, e))
  {
    match e
    case Ask(r) => AskFailsClosed(s, r);
    case Press(key, w) => KeyFailsClosed(s, key, w);
    case Fires(t) =>
      if t.Timeout? { TimeoutFailsClosed(s, t.kind, t.seqNo); }
    case TearDown(reason) => TeardownRefuses(s, reason);
    case Receive(_) =>
    case SetAutonomous(_) =>
  }

  lemma TimeoutFailsClosed(s: State, k: Kind, n: nat)
    requires Inv(s) && Timeout(k, n) in s.inflight
    ensures FailsClosed(s, Fires(Timeout(k, n)), Step(s, Fires(Timeout(k, n))))
  {
    hide NextPrompt, Base, TimersLive, LaneOk;
    var s' := Step(s, Fires(Timeout(k, n)));
    TimeoutHitsItsOwnPrompt(s, k, n);
    CoreLanes(s);
    CoreConserved(s);
    ActiveNotWaiting(s);
    if s'.answers != s.answers {
      ActiveKind(s, k);
      var r := LaneOf(s, k).active.value;
      assert s'.answers[|s.answers|] == Answered(r, Denial(k, "timed out"), CanDeliver(s, r));
    }
  }

  lemma AskFailsClosed(s: State, r: Request)
    requires Inv(s) && Enabled(s, Ask(r))
    ensures FailsClosed(s, Ask(r), HandleAsk(s, r))
  {
    hide NextPrompt, Base, TimersLive, LaneOk;
    var s1 := Arrive(s, r);
    if !Busy(s1) && r.kind == Permission && s.autonomous {
      var q := Enqueue(s1, r);
      assert LaneOf(s, Permission).queue == [] && LaneOf(s, Approval).queue == [];
      EnqueueCore(s, r);
      assert Pop(q, Permission) == Accept(s1, r);
      AutoAllowKeeps(q);
      var t := AutoAllow(Accept(s1, r), r);
      CoreLanes(t);
      NextFrame(t);
      assert NextPrompt(t).answers[|s.answers|] == t.answers[|s.answers|];
    }
  }

  /** Fail closed over whole runs: every answer ever sent was sent by some step of the run, and it is
    a refusal or that step's event licensed it. */
  lemma {:induction false} EveryGrantIsLicensed(autonomous: bool, events: seq<Event>, j: nat)
    returns (i: nat)
    requires Feasible(Initial(autonomous), events)
    requires j < |Run(Initial(autonomous), events).answers|
    ensures i < |events|
    ensures var before, after := Run(Initial(autonomous), events[..i]), Run(Initial(autonomous), events[..i + 1]);
            var a := Run(Initial(autonomous), events).answers[j];
            && |before.answers| <= j < |after.answers| && after.answers[j] == a
            && (Refuses(a.req, a.reply) || Licensed(before, events[i], after, a))
            && (Grants(a.reply) ==> Licensed(before, events[i], after, a))
  {
    hide Inv, Step, Enabled, Licensed;
    var init := events[..|events| - 1];
    var s, e := Run(Initial(autonomous), init), events[|events| - 1];
    RunKeeps(autonomous, init);
    StepFailsClosed(s, e);
    if |s.answers| <= j {
      i := |events| - 1;
      assert events[..i + 1] == events;
    } else {
      i := EveryGrantIsLicensed(autonomous, init, j);
      assert init[..i] == events[..i] && init[..i + 1] == events[..i + 1];
    }
  }

  /** No run ever stores an allow rule wider than one action, or for an action that was not allowed. */
  lemma AllowRulesAreExact(autonomous: bool, events: seq<Event>, rule: Rule)
    requires Feasible(Initial(autonomous), events)
    requires rule in Run(Initial(autonomous), events).rules && rule.allow
    ensures !rule.ToolSession?
    ensures exists i :: 0 <= i < |Run(Initial(autonomous), events).answers|
              && Run(Initial(autonomous), events).answers[i].req.tool == rule.tool
              && Run(Initial(autonomous), events).answers[i].req.identity == rule.identity
              && Run(Initial(autonomous), events).answers[i].reply == Permit(true)
  {
    hide Run, Feasible;
    RunKeeps(autonomous, events);
    assert RuleBacked(rule, Run(Initial(autonomous), events).answers);
  }

  // ----- Order -----

  /** `xs` is a subsequence of `ys`. */
  ghost predicate Subsequence<T(!new)>(xs: seq<T>, ys: seq<T>) {
    xs == [] ||
    (ys != [] &&
     (Subsequence(xs, ys[..|ys| - 1]) ||
      (xs[|xs| - 1] == ys[|ys| - 1] && Subsequence(xs[..|xs| - 1], ys[..|ys| - 1]))))
  }

  lemma SubsequenceGrows<T(!new)>(xs: seq<T>, ys: seq<T>, y: T)
    requires Subsequence(xs, ys)
    ensures Subsequence(xs, ys + [y]) && Subsequence(xs + [y], ys + [y])
  {
    assert (ys + [y])[..|ys|] == ys && (xs + [y])[..|xs|] == xs;
  }

  /** Only the arrival of a request of kind `k` extends the accepted requests of kind `k`. */
  lemma AcceptedFrame(s: State, e: Event, k: Kind)
    requires Inv(s) && Enabled(s, e)
    ensures var s' := Step(s, e);
            var x, x' := LaneOf(s, k).accepted, LaneOf(s', k).accepted;
            if e.Ask? then s'.arrived == s.arrived + [e.req] && (x' == x || x' == x + [e.req])
            else s'.arrived == s.arrived && x' == x
  {
    hide Base, TimersLive, LaneOk, NextPrompt, DenyQueue;
    CoreLanes(s);
    match e
    case Ask(r) => AskFrame(s, r, k);
    case Press(key, w) => KeyFrame(s, key, w, k);
    case Fires(t) =>
      if t.Timeout? {
        var s1 := s.(inflight := s.inflight - multiset{t});
        assert forall j :: LaneOf(s1, j) == LaneOf(s, j);
        if LaneOf(s1, t.kind).active.Some? {
          ResolveFrame(s1, t.kind, Denial(t.kind, "timed out"), k);
        }
      }
    case TearDown(reason) => TeardownFrame(s, reason, k);
    case Receive(_) =>
    case SetAutonomous(_) =>
  }

  lemma ResolveFrame(s: State, k: Kind, reply: Reply, j: Kind)
    requires LanesOk(s) && LaneOf(s, k).active.Some?
    ensures LanesOk(Resolve(s, k, reply))
    ensures LaneOf(NextPrompt(Resolve(s, k, reply)), j).accepted == LaneOf(s, j).accepted
    ensures NextPrompt(Resolve(s, k, reply)).arrived == s.arrived
  {
    hide NextPrompt, LaneOk;
    var l := LaneOf(s, k);
    CloseLane(l, k);
    ReplaceLanes(s, Resolve(s, k, reply), k, l.(active := None, deadline := false));
    NextFrame(Resolve(s, k, reply));
  }

  lemma AskFrame(s: State, r: Request, k: Kind)
    requires Inv(s) && Enabled(s, Ask(r))
    ensures var s' := HandleAsk(s, r);
            var x, x' := LaneOf(s, k).accepted, LaneOf(s', k).accepted;
            s'.arrived == s.arrived + [r] && (x' == x || x' == x + [r])
  {
    hide NextPrompt, Base, TimersLive, LaneOk;
    var s1 := Arrive(s, r);
    if !Busy(s1) && r.kind == Permission && s.autonomous {
      var q := Enqueue(s1, r);
      assert LaneOf(s, Permission).queue == [] && LaneOf(s, Approval).queue == [];
      EnqueueCore(s, r);
      assert Pop(q, Permission) == Accept(s1, r);
      AutoAllowKeeps(q);
      var t := AutoAllow(Accept(s1, r), r);
      CoreLanes(t);
      NextFrame(t);
    }
  }

  lemma KeyFrame(s: State, key: Key, w: Surroundings, k: Kind)
    requires Inv(s)
    ensures LaneOf(HandleKey(s, key, w), k).accepted == LaneOf(s, k).accepted
    ensures HandleKey(s, key, w).arrived == s.arrived
  {
    hide Base, TimersLive, LaneOk, NextPrompt;
    CoreLanes(s);
    NextFrame(s);
    forall j, reply | LaneOf(s, j).active.Some?
      ensures LaneOf(NextPrompt(Resolve(s, j, reply)), k).accepted == LaneOf(s, k).accepted
      ensures NextPrompt(Resolve(s, j, reply)).arrived == s.arrived
    {
      ResolveFrame(s, j, reply, k);
    }
    if s.approval.active.Some? {
      assert LaneOf(s, Approval).active.Some?;
    } else if s.permission.active.Some? {
      PermissionKeyFrame(s, key, w, k);
    } else if s.credential.active.Some? {
      assert LaneOf(s, Credential).active.Some?;
    } else if s.question.active.Some? {
      assert LaneOf(s, Question).active.Some?;
    }
  }

  lemma PermissionKeyFrame(s: State, key: Key, w: Surroundings, k: Kind)
    requires Core(s) && s.permission.active.Some?
    ensures LaneOf(PermissionKey(s, key, w), k).accepted == LaneOf(s, k).accepted
    ensures PermissionKey(s, key, w).arrived == s.arrived
  {
    hide Core, LanesOk, NextPrompt, PermissionChoice;
    ApplyKeeps(s, key, w);
    CoreLanes(Apply(s, PermissionChoice(s, key, w)));
    NextFrame(Apply(s, PermissionChoice(s, key, w)));
  }

  lemma {:induction false} DenyQueueFrame(s: State, k: Kind, j: Kind)
    ensures LaneOf(DenyQueue(s, k), j).accepted == LaneOf(s, j).accepted
    ensures DenyQueue(s, k).arrived == s.arrived
    decreases |LaneOf(s, k).queue|
  {
    if LaneOf(s, k).queue != [] {
      DenyQueueFrame(DropHead(s, k), k, j);
    }
  }

  lemma DenyActiveFrame(s: State, k: Kind, reason: string, j: Kind)
    ensures LaneOf(DenyActive(s, k, reason), j).accepted == LaneOf(s, j).accepted
    ensures DenyActive(s, k, reason).arrived == s.arrived
  {
  }

  lemma TeardownFrame(s: State, reason: string, j: Kind)
    ensures LaneOf(Teardown(s, reason), j).accepted == LaneOf(s, j).accepted
    ensures Teardown(s, reason).arrived == s.arrived
  {
    hide DenyQueue, DenyActive;
    var a := DenyActive(s, Permission, reason);
    DenyActiveFrame(s, Permission, reason, j);
    DenyQueueFrame(a, Permission, j);
    var b := DenyQueue(a, Permission);
    DenyActiveFrame(b, Approval, reason, j);
    DenyQueueFrame(DenyActive(b, Approval, reason), Approval, j);
    var c := DenyQueue(DenyActive(b, Approval, reason), Approval);
    DenyQueueFrame(c, Question, j);
    DenyQueueFrame(DenyQueue(c, Question), Credential, j);
    var d := DenyQueue(DenyQueue(c, Question), Credential);
    DenyActiveFrame(d, Question, reason, j);
    DenyActiveFrame(DenyActive(d, Question, reason), Credential, reason, j);
  }

  /** First come, first served within each kind: the requests that left the line of kind `k`, then
    those still waiting in it, are the accepted ones in order of arrival; and none was activated or
    auto-resolved while a queue of higher priority had anything waiting. */
  lemma {:induction false} FirstComeFirstServed(autonomous: bool, events: seq<Event>, k: Kind)
    requires Feasible(Initial(autonomous), events)
    ensures var s := Run(Initial(autonomous), events);
            var l := LaneOf(s, k);
            && Gone(l.left) + l.queue == l.accepted
            && Subsequence(l.accepted, s.arrived)
            && (forall d :: d in l.left && d.how != Dropped ==> d.ahead == 0)
  {
    hide Inv, Step, Enabled, Subsequence;
    RunKeeps(autonomous, events);
    var s := Run(Initial(autonomous), events);
    InvLane(s, k);
    if events == [] {
      EmptySubsequence(s.arrived);
    } else {
      var init := events[..|events| - 1];
      var p, e := Run(Initial(autonomous), init), events[|events| - 1];
      FirstComeFirstServed(autonomous, init, k);
      RunKeeps(autonomous, init);
      AcceptedFrame(p, e, k);
      if e.Ask? {
        SubsequenceGrows(LaneOf(p, k).accepted, p.arrived, e.req);
      }
    }
  }

  lemma EmptySubsequence<T(!new)>(ys: seq<T>)
    ensures Subsequence([], ys)
  {
  }

  lemma InvLane(s: State, k: Kind)
    requires Inv(s)
    ensures LaneOk(LaneOf(s, k), k)
  {
  }

  // ----- Progress -----

  lemma AnswersBoundLive(s: State, s': State)
    requires Conserved(s) && Conserved(s') && s'.arrived == s.arrived && |s'.answers| > |s.answers|
    ensures |Live(s')| < |Live(s)|
  {
    hide Live, UniqueIds;
    assert |multiset(s.arrived)| == |Live(s)| + |multiset(Requests(s.answers))|;
    assert |multiset(s'.arrived)| == |Live(s')| + |multiset(Requests(s'.answers))|;
  }

  /** The timeout of the prompt on screen is in flight, and when it fires fewer requests are live. */
  lemma TimeoutMakesProgress(s: State, k: Kind)
    requires Inv(s) && LaneOf(s, k).active.Some?
    ensures var e := Fires(Timeout(k, LaneOf(s, k).seqNo));
            && Enabled(s, e) && Inv(Step(s, e))
            && Step(s, e).arrived == s.arrived && |Live(Step(s, e))| < |Live(s)|
  {
    hide NextPrompt, Base, Resolve, Live, NoneWaiting;
    var n := LaneOf(s, k).seqNo;
    var e := Fires(Timeout(k, n));
    assert Timeout(k, n) in s.inflight;
    StepKeeps(s, e);
    AcceptedFrame(s, e, k);
    TimeoutAnswers(s, k);
    CoreConserved(s);
    CoreConserved(Step(s, e));
    AnswersBoundLive(s, Step(s, e));
  }

  lemma TimeoutAnswers(s: State, k: Kind)
    requires Inv(s) && LaneOf(s, k).active.Some? && Timeout(k, LaneOf(s, k).seqNo) in s.inflight
    ensures |Step(s, Fires(Timeout(k, LaneOf(s, k).seqNo))).answers| > |s.answers|
  {
    hide NextPrompt, Base, TimersLive;
    var t := Timeout(k, LaneOf(s, k).seqNo);
    var s1 := s.(inflight := s.inflight - multiset{t});
    assert LaneOf(s1, k) == LaneOf(s, k);
    DisarmKeeps(s, t);
    BaseLanes(s1, k);
    NextFrame(Resolve(s1, k, Denial(k, "timed out")));
  }

  lemma {:induction false} RunCons(s: State, e: Event, events: seq<Event>)
    requires Enabled(s, e) && Feasible(Step(s, e), events)
    ensures Feasible(s, [e] + events) && Run(s, [e] + events) == Run(Step(s, e), events)
  {
    hide Step, Enabled;
    var all := [e] + events;
    if events == [] {
      assert all[..0] == [] && all[0] == e;
      assert Run(s, all[..0]) == s;
    } else {
      var init := events[..|events| - 1];
      RunCons(s, e, init);
      assert all[..|all| - 1] == [e] + init;
    }
  }

  /** No requester waits for ever: from any state of any run, some run of timeouts alone, one for each
    live request at most, answers every request that arrived. */
  lemma {:induction false} TimeoutsAnswerEverything(s: State) returns (events: seq<Event>)
    requires Inv(s)
    ensures Feasible(s, events) && |events| <= |Live(s)|
    ensures forall e :: e in events ==> e.Fires? && e.timer.Timeout?
    ensures Live(Run(s, events)) == multiset{} && Run(s, events).arrived == s.arrived
    ensures multiset(Requests(Run(s, events).answers)) == multiset(s.arrived)
    decreases |Live(s)|
  {
    hide Step, Enabled, Live, Core, NoneWaiting;
    BusyMeansActive(s);
    if Busy(s) {
      var k :| LaneOf(s, k).active.Some?;
      var e := Fires(Timeout(k, LaneOf(s, k).seqNo));
      TimeoutMakesProgress(s, k);
      var rest := TimeoutsAnswerEverything(Step(s, e));
      RunCons(s, e, rest);
      events := [e] + rest;
    } else {
      events := [];
      NothingLive(s);
    }
  }

  lemma NothingLive(s: State)
    requires Inv(s) && !Busy(s)
    ensures Live(s) == multiset{} && multiset(Requests(s.answers)) == multiset(s.arrived)
  {
    CoreConserved(s);
    hide Core, UniqueIds;
    assert LaneOf(s, Approval).queue == [] && LaneOf(s, Permission).queue == [];
    assert LaneOf(s, Credential).queue == [] && LaneOf(s, Question).queue == [];
  }
}
