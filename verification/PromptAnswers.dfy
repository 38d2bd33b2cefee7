/** What each event answers, with the keys and the replies written out. */
module PromptAnswers {
  import opened Wrappers
  import opened PromptState
  import opened PromptInvariants
  import opened PromptRuns

  /** The step answers the request `r` first, with `reply`; what else it answers is the Autonomous drain
    of waiting permission requests. */
  ghost predicate AnswersFirst(s: State, s': State, r: Request, reply: Reply) {
    var first := s.answers + [Answered(r, reply, r.slot)];
    OnlyAutoAllows(s.autonomous, s.permission.queue, first, s'.answers)
  }

  lemma FirstAnswer(s: State, k: Kind, reply: Reply, t: State)
    requires Inv(s) && LaneOf(s, k).active.Some? && LanesOk(t)
    requires t.autonomous == s.autonomous && t.permission.queue == s.permission.queue
    requires var r := LaneOf(s, k).active.value; t.answers == s.answers + [Answered(r, reply, CanDeliver(s, r))]
    ensures AnswersFirst(s, NextPrompt(t), LaneOf(s, k).active.value, reply)
    ensures LaneOf(s, k).active.value.kind == k && NextPrompt(t).rules == t.rules
  {
    hide NextPrompt, OnlyAutoAllows, Base, TimersLive, LaneOk, Conserved, NoneWaiting;
    CoreLanes(s);
    ActiveKind(s, k);
    ResolveKeeps(s, k, reply);
    NextFrame(t);
  }

  lemma ResolvedFirst(s: State, k: Kind, reply: Reply)
    requires Inv(s) && LaneOf(s, k).active.Some?
    ensures AnswersFirst(s, NextPrompt(Resolve(s, k, reply)), LaneOf(s, k).active.value, reply)
    ensures NextPrompt(Resolve(s, k, reply)).rules == s.rules
  {
    hide NextPrompt, AnswersFirst, Base, TimersLive, LaneOk, NoneWaiting;
    CoreResolve(s, k, reply);
    CoreLanes(Resolve(s, k, reply));
    FirstAnswer(s, k, reply, Resolve(s, k, reply));
  }

  lemma OnlyOnScreen(s: State, k: Kind)
    requires Inv(s) && LaneOf(s, k).active.Some?
    ensures NextPrompt(s) == s
    ensures k != Approval ==> s.approval.active.None?
    ensures k != Permission ==> s.permission.active.None?
    ensures k != Credential ==> s.credential.active.None?
    ensures k != Question ==> s.question.active.None?
  {
    hide LanesOk, Conserved, ChannelsOk, TimersBounded, RulesBacked, TimersLive, NoneWaiting;
    assert LaneOf(s, Approval).active.Some? ==> Approval == k;
    assert LaneOf(s, Permission).active.Some? ==> Permission == k;
    assert LaneOf(s, Credential).active.Some? ==> Credential == k;
    assert LaneOf(s, Question).active.Some? ==> Question == k;
    BusyMeansActive(s);
  }

  /** With an approval on screen: which key answers it with which scope.  Any other key changes nothing. */
  lemma ApprovalKeys(s: State, key: Key, w: Surroundings)
    requires Inv(s) && s.approval.active.Some?
    ensures var (s', r) := (Step(s, Press(key, w)), s.approval.active.value);
            if key in {Rune('y'), Rune('Y')} then AnswersFirst(s, s', r, Verdict(Approve))
            else if key in {Rune('s'), Rune('S'), Rune('a'), Rune('A')} then
              AnswersFirst(s, s', r, Verdict(ApproveForSession))
            else if key == Rune('5') then AnswersFirst(s, s', r, Verdict(ApproveForN))
            else if key in {Rune('n'), Rune('N'), Esc} then AnswersFirst(s, s', r, Verdict(Reject))
            else s' == s
  {
    hide NextPrompt, AnswersFirst, Inv, Resolve;
    assert LaneOf(s, Approval) == s.approval;
    ResolvedFirst(s, Approval, Verdict(Approve));
    ResolvedFirst(s, Approval, Verdict(ApproveForSession));
    ResolvedFirst(s, Approval, Verdict(ApproveForN));
    ResolvedFirst(s, Approval, Verdict(Reject));
  }

  /** With a credential request on screen. */
  lemma CredentialKeys(s: State, key: Key, w: Surroundings)
    requires Inv(s) && s.credential.active.Some?
    ensures var (s', r) := (Step(s, Press(key, w)), s.credential.active.value);
            if key in {Rune('y'), Rune('Y')} then AnswersFirst(s, s', r, Access(true, ""))
            else if key in {Rune('n'), Rune('N'), Esc} then AnswersFirst(s, s', r, Access(false, "denied by user"))
            else s' == s
  {
    hide NextPrompt, AnswersFirst, Inv, Resolve;
    assert LaneOf(s, Credential) == s.credential;
    OnlyOnScreen(s, Credential);
    ResolvedFirst(s, Credential, Access(true, ""));
    ResolvedFirst(s, Credential, Access(false, "denied by user"));
  }

  /** With a question on screen: what was typed is sent, and Escape sends nothing. */
  lemma QuestionKeys(s: State, key: Key, w: Surroundings)
    requires Inv(s) && s.question.active.Some?
    ensures var (s', r) := (Step(s, Press(key, w)), s.question.active.value);
            if key == Enter then AnswersFirst(s, s', r, Text(w.typed))
            else if key == Esc then AnswersFirst(s, s', r, Text(""))
            else s' == s
  {
    hide NextPrompt, AnswersFirst, Inv, Resolve;
    assert LaneOf(s, Question) == s.question;
    OnlyOnScreen(s, Question);
    ResolvedFirst(s, Question, Text(w.typed));
    ResolvedFirst(s, Question, Text(""));
  }

  /** With a permission request on screen: the answer, and the one rule that the key stores besides.  A
    key for the session stores nothing when nobody waits on a channel for the answer; a key for the
    project stores nothing when no project rules are configured; neither stores a rule for an action
    without an identity.  An allow for the project without a stored rule turns into a refusal. */
  lemma PermissionKeys(s: State, key: Key, w: Surroundings)
    requires Inv(s) && s.permission.active.Some?
    ensures var (s', r) := (Step(s, Press(key, w)), s.permission.active.value);
            var (session, project) := (r.slot && w.sessionSaves, w.configured && w.projectSaves && r.identity != "");
            if key in {Rune('y'), Rune('Y')} then AnswersFirst(s, s', r, Permit(true)) && s'.rules == s.rules
            else if key in {Rune('n'), Rune('N'), Esc} then
              AnswersFirst(s, s', r, Permit(false)) && s'.rules == s.rules
            else if key in {Rune('a'), Rune('A'), Rune('s'), Rune('S')} then
              && AnswersFirst(s, s', r, Permit(true))
              && s'.rules == s.rules + (if session && r.identity != ""
                                        then {ExactSession(r.tool, r.identity, true)} else {})
            else if key in {Rune('d'), Rune('D')} then
              && AnswersFirst(s, s', r, Permit(false))
              && s'.rules == s.rules + (if session then {ToolSession(r.tool, false)} else {})
            else if key in {Rune('p'), Rune('P')} then
              && AnswersFirst(s, s', r, Permit(project))
              && s'.rules == s.rules + (if project then {Project(r.tool, r.identity, true)} else {})
            else if key in {Rune('x'), Rune('X')} then
              && AnswersFirst(s, s', r, Permit(false))
              && s'.rules == s.rules + (if project then {Project(r.tool, r.identity, false)} else {})
            else s' == s
  {
    hide NextPrompt, AnswersFirst, Inv, Resolve, PermissionChoice, CanDeliver;
    var c := PermissionChoice(s, key, w);
    assert LaneOf(s, Permission) == s.permission;
    OnlyOnScreen(s, Permission);
    OpenChannel(s, Permission);
    ChoiceTable(s, key, w);
    if c.Decide? {
      DecidedFirst(s, key, w);
    }
  }

  lemma OpenChannel(s: State, k: Kind)
    requires Inv(s) && LaneOf(s, k).active.Some?
    ensures CanDeliver(s, LaneOf(s, k).active.value) <==> LaneOf(s, k).active.value.slot
  {
    ResolveKeeps(s, k, Denial(k, ""));
  }

  lemma DecidedFirst(s: State, key: Key, w: Surroundings)
    requires Inv(s) && s.permission.active.Some? && PermissionChoice(s, key, w).Decide?
    ensures var c := PermissionChoice(s, key, w);
            && AnswersFirst(s, NextPrompt(Apply(s, c)), s.permission.active.value, Permit(c.allow))
            && NextPrompt(Apply(s, c)).rules == c.rules
  {
    hide NextPrompt, AnswersFirst, Base, TimersLive, NoneWaiting, PermissionChoice;
    var c := PermissionChoice(s, key, w);
    ApplyKeeps(s, key, w);
    CoreLanes(Apply(s, c));
    assert LaneOf(s, Permission) == s.permission;
    FirstAnswer(s, Permission, Permit(c.allow), Apply(s, c));
  }

  lemma ChoiceTable(s: State, key: Key, w: Surroundings)
    requires s.permission.active.Some?
    ensures var (c, r) := (PermissionChoice(s, key, w), s.permission.active.value);
            var (session, project) := (CanDeliver(s, r) && w.sessionSaves,
                                       w.configured && w.projectSaves && r.identity != "");
            if key in {Rune('y'), Rune('Y')} then c == Decide(true, s.rules)
            else if key in {Rune('n'), Rune('N'), Esc} then c == Decide(false, s.rules)
            else if key in {Rune('a'), Rune('A'), Rune('s'), Rune('S')} then
              c == Decide(true, s.rules + (if session && r.identity != ""
                                           then {ExactSession(r.tool, r.identity, true)} else {}))
            else if key in {Rune('d'), Rune('D')} then
              c == Decide(false, s.rules + (if session then {ToolSession(r.tool, false)} else {}))
            else if key in {Rune('p'), Rune('P')} then
              c == Decide(project, s.rules + (if project then {Project(r.tool, r.identity, true)} else {}))
            else if key in {Rune('x'), Rune('X')} then
              c == Decide(false, s.rules + (if project then {Project(r.tool, r.identity, false)} else {}))
            else c == Ignore
  {
    assert s.rules + {} == s.rules;
  }

  // ----- Arrivals -----

  /** What becomes of an arriving request: queued last while fewer than 32 of its kind wait behind the
    prompt on screen, refused when 32 do, shown on a free screen, and allowed unseen in Autonomous mode
    if it is a permission request. */
  lemma Arrivals(s: State, r: Request)
    requires Inv(s) && Enabled(s, Ask(r))
    ensures var (s', waiting) := (Step(s, Ask(r)), LaneOf(s, r.kind).queue);
            var refusal := match r.kind
              case Approval => Verdict(Reject)
              case Permission => Permit(false)
              case Credential => Access(false, "credential queue full")
              case Question => Text("");
            if exists k :: LaneOf(s, k).active.Some? then
              if |waiting| < 32 then s'.answers == s.answers && LaneOf(s', r.kind).queue == waiting + [r]
              else
                LaneOf(s', r.kind).queue == waiting && s'.answers == s.answers + [Answered(r, refusal, r.slot)]
            else if r.kind == Permission && s.autonomous then
              s'.answers == s.answers + [Answered(r, Permit(true), r.slot)] && !Busy(s')
            else s'.answers == s.answers && LaneOf(s', r.kind).active == Some(r)
  {
    hide Core;
    BusyMeansActive(s);
    NewChannel(s, r);
    FreeScreen(s, r);
  }

  /** Nothing waits behind a free screen, so a permission request that is allowed unseen is all. */
  lemma FreeScreen(s: State, r: Request)
    requires Inv(s)
    ensures !Busy(s) ==> s.approval.queue == [] && s.permission.queue == []
    ensures !Busy(s) ==> s.credential.queue == [] && s.question.queue == []
    ensures var t := AutoAllow(Accept(Arrive(s, r), r), r);
            !Busy(s) && r.kind == Permission ==> NextPrompt(t) == t && !Busy(t)
  {
    hide Core;
    if !Busy(s) {
      assert LaneOf(s, Approval).queue == [] && LaneOf(s, Permission).queue == [];
      assert LaneOf(s, Credential).queue == [] && LaneOf(s, Question).queue == [];
    }
  }

  lemma NewChannel(s: State, r: Request)
    requires Inv(s) && Enabled(s, Ask(r))
    ensures r.id !in s.inbox
  {
    hide LanesOk, Exclusive, TimersBounded, TimersLive, RulesBacked;
    FreshArrival(s, r);
    forall id | id in s.inbox
      ensures id != r.id
    {
      assert InAnswers(s.answers, id, s.inbox[id]);
    }
  }

  // ----- Priority -----

  /** Nothing of a higher priority waits: approvals come first, then permissions, credentials, questions. */
  predicate NothingBefore(s: State, k: Kind) {
    && (k != Approval ==> s.approval.queue == [])
    && (k == Credential || k == Question ==> s.permission.queue == [])
    && (k == Question ==> s.credential.queue == [])
  }

  ghost predicate InOrder(s: State, s': State) {
    forall k :: LaneOf(s', k).left != LaneOf(s, k).left ==> NothingBefore(s', k)
  }

  lemma {:induction false} DrainInOrder(s: State)
    ensures InOrder(s, NextPrompt(s))
    ensures s.approval.queue == [] ==> NextPrompt(s).approval == s.approval
    decreases |s.permission.queue|
  {
    if !Busy(s) && s.approval.queue == [] && s.permission.queue != [] && s.autonomous {
      var t := AutoAllow(Pop(s, Permission), s.permission.queue[0]);
      AutoAllowShrinks(s);
      DrainInOrder(t);
      assert forall k :: k != Permission ==> LaneOf(t, k) == LaneOf(s, k);
    }
  }

  /** Whatever leaves a line in a step, nothing of a higher priority is waiting behind it. */
  lemma HigherPriorityFirst(s: State, e: Event, k: Kind)
    requires Inv(s) && Enabled(s, e) && LaneOf(Step(s, e), k).left != LaneOf(s, k).left
    ensures k != Approval ==> Step(s, e).approval.queue == []
    ensures k == Credential || k == Question ==> Step(s, e).permission.queue == []
    ensures k == Question ==> Step(s, e).credential.queue == []
  {
    hide Inv, Step, Enabled;
    StepInOrder(s, e);
  }

  lemma ResolveInOrder(s: State, k: Kind, reply: Reply)
    requires LaneOf(s, k).active.Some?
    ensures InOrder(s, NextPrompt(Resolve(s, k, reply)))
  {
    hide NextPrompt, NothingBefore;
    var t := Resolve(s, k, reply);
    DrainInOrder(t);
    assert forall j :: LaneOf(t, j).left == LaneOf(s, j).left;
  }

  lemma PermissionInOrder(s: State, key: Key, w: Surroundings)
    requires s.permission.active.Some?
    ensures InOrder(s, PermissionKey(s, key, w))
  {
    hide NextPrompt, NothingBefore, PermissionChoice;
    var t := Apply(s, PermissionChoice(s, key, w));
    DrainInOrder(t);
    assert forall j :: LaneOf(t, j).left == LaneOf(s, j).left;
  }

  lemma KeyInOrder(s: State, key: Key, w: Surroundings)
    ensures InOrder(s, HandleKey(s, key, w))
  {
    hide NextPrompt, NothingBefore, Resolve, PermissionKey;
    assert LaneOf(s, Approval) == s.approval && LaneOf(s, Credential) == s.credential;
    assert LaneOf(s, Question) == s.question;
    DrainInOrder(s);
    forall k, reply | LaneOf(s, k).active.Some?
      ensures InOrder(s, NextPrompt(Resolve(s, k, reply)))
    {
      ResolveInOrder(s, k, reply);
    }
    if s.permission.active.Some? {
      PermissionInOrder(s, key, w);
    }
  }

  lemma StepInOrder(s: State, e: Event)
    requires Inv(s) && Enabled(s, e)
    ensures InOrder(s, Step(s, e))
  {
    hide Core, NextPrompt, Teardown, HandleKey, HandleAsk, NothingBefore;
    match e
    case Ask(r) => AskInOrder(s, r);
    case Press(key, w) => KeyInOrder(s, key, w);
    case Fires(t) =>
      var s1 := s.(inflight := s.inflight - multiset{t});
      if t.Timeout? && LaneOf(s1, t.kind).active.Some? {
        ResolveInOrder(s1, t.kind, Denial(t.kind, "timed out"));
        assert forall j :: LaneOf(s1, j) == LaneOf(s, j);
      }
    case TearDown(reason) =>
      NothingBehind(s, reason);
    case Receive(_) =>
    case SetAutonomous(_) =>
  }

  lemma NothingBehind(s: State, reason: string)
    requires Core(s)
    ensures InOrder(s, Teardown(s, reason))
  {
    hide Core, Teardown;
    TeardownKeeps(s, reason);
    var s' := Teardown(s, reason);
    assert LaneOf(s', Approval).queue == [] && LaneOf(s', Permission).queue == [];
    assert LaneOf(s', Credential).queue == [];
  }

  lemma AskInOrder(s: State, r: Request)
    requires Inv(s)
    ensures InOrder(s, HandleAsk(s, r))
  {
    hide Core;
    FreeScreen(s, r);
  }
}
