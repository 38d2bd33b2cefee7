/** The prompt scheduler in the shape of the chat model: for each kind the active request, the queue,
  the sequence counter and the deadline, grouped in a record and overwritten step by step by the
  message handlers.  Every handler makes exactly the step of the state machine in `PromptState`. */
module PromptScheduler {
  import opened Wrappers
  import opened PromptState
  import opened PromptInvariants

  class Scheduler {
    var approval: Lane
    var permission: Lane
    var credential: Lane
    var question: Lane
    var promptGeneration: nat
    var autonomous: bool
    var inbox: map<nat, Reply>
    var rules: set<Rule>

    ghost var inflight: multiset<Timer>
    ghost var arrived: seq<Request>
    ghost var answers: seq<Answered>

    ghost function Snapshot(): State
      reads this
    {
      State(approval, permission, credential, question,
            promptGeneration, autonomous, inbox, rules, inflight, arrived, answers)
    }

    constructor (autonomous: bool)
      ensures Snapshot() == Initial(autonomous) && Inv(Snapshot())
    {
      approval, permission, credential, question := EMPTY_LANE, EMPTY_LANE, EMPTY_LANE, EMPTY_LANE;
      promptGeneration, this.autonomous, inbox, rules := 0, autonomous, map[], {};
      inflight, arrived, answers := multiset{}, [], [];
      new;
      InitialInv(autonomous);
    }

    predicate HasActiveInteractivePrompt()
      reads this
      ensures HasActiveInteractivePrompt() <==> exists k :: LaneOf(Snapshot(), k).active.Some?
    {
      BusyMeansActive(Snapshot());
      permission.active.Some? || approval.active.Some? || question.active.Some? || credential.active.Some?
    }

    /** The non-blocking send of the four resolve functions. */
    method TrySend(r: Request, reply: Reply) returns (ok: bool)
      modifies this`inbox, this`answers
      ensures ok == CanDeliver(old(Snapshot()), r)
      ensures Snapshot() == Send(old(Snapshot()), r, reply)
    {
      ok := r.slot && r.id !in inbox;
      if ok {
        inbox := inbox[r.id := reply];
      }
      answers := answers + [Answered(r, reply, ok)];
    }

    // ----- Activation -----

    method ActivateApprovalRequest(r: Request)
      modifies this
      ensures Snapshot() == Show(old(Snapshot()), Approval, r)
    {
      approval := approval.(active := Some(r));
      approval := approval.(seqNo := approval.seqNo + 1);
      promptGeneration := promptGeneration + 1;
      approval := approval.(deadline := true);
      approval := Depart(approval, r, Activated, 0);
      inflight := inflight + multiset{Timeout(Approval, approval.seqNo), Tick(promptGeneration)};
    }

    method ActivatePermissionRequest(r: Request)
      modifies this
      ensures Snapshot() == Start(old(Snapshot()), Permission, r)
      decreases |permission.queue|, 1
    {
      if autonomous {
        permission := Depart(permission, r, AutoAllowed, |approval.queue|);
        var _ := TrySend(r, Permit(true));
        ActivateNextPrompt();
        return;
      }
      permission := permission.(active := Some(r));
      permission := permission.(seqNo := permission.seqNo + 1);
      promptGeneration := promptGeneration + 1;
      permission := permission.(deadline := true);
      permission := Depart(permission, r, Activated, |approval.queue|);
      inflight := inflight + multiset{Timeout(Permission, permission.seqNo), Tick(promptGeneration)};
    }

    method ActivateCredentialRequest(r: Request)
      modifies this
      ensures Snapshot() == Show(old(Snapshot()), Credential, r)
    {
      credential := credential.(active := Some(r));
      credential := credential.(seqNo := credential.seqNo + 1);
      promptGeneration := promptGeneration + 1;
      credential := credential.(deadline := true);
      credential := Depart(credential, r, Activated, |approval.queue| + |permission.queue|);
      inflight := inflight + multiset{Timeout(Credential, credential.seqNo), Tick(promptGeneration)};
    }

    method ActivateAskUserRequest(r: Request)
      modifies this
      ensures Snapshot() == Show(old(Snapshot()), Question, r)
    {
      question := question.(active := Some(r));
      question := question.(seqNo := question.seqNo + 1);
      promptGeneration := promptGeneration + 1;
      question := question.(deadline := true);
      question := Depart(question, r, Activated, |approval.queue| + |permission.queue| + |credential.queue|);
      inflight := inflight + multiset{Timeout(Question, question.seqNo), Tick(promptGeneration)};
    }

    /** Serialises the four surfaces: the next prompt in order of priority, if the screen is free. */
    method ActivateNextPrompt()
      modifies this
      ensures Snapshot() == NextPrompt(old(Snapshot()))
      decreases |permission.queue|, 0
    {
      hide Show, Start;
      if HasActiveInteractivePrompt() {
        return;
      }
      if |approval.queue| > 0 {
        var r := approval.queue[0];
        approval := approval.(queue := approval.queue[1..]);
        ActivateApprovalRequest(r);
        return;
      }
      if |permission.queue| > 0 {
        var r := permission.queue[0];
        permission := permission.(queue := permission.queue[1..]);
        ActivatePermissionRequest(r);
        return;
      }
      if |credential.queue| > 0 {
        var r := credential.queue[0];
        credential := credential.(queue := credential.queue[1..]);
        ActivateCredentialRequest(r);
        return;
      }
      if |question.queue| > 0 {
        var r := question.queue[0];
        question := question.(queue := question.queue[1..]);
        ActivateAskUserRequest(r);
        return;
      }
    }

    // ----- Arrivals -----

    method HandleApprovalAsk(r: Request)
      requires r.kind == Approval
      modifies this
      ensures Snapshot() == HandleAsk(old(Snapshot()), r)
    {
      hide NextPrompt, Show, AutoAllow;
      arrived := arrived + [r];
      if HasActiveInteractivePrompt() {
        if |approval.queue| >= MAX_PENDING_PROMPTS {
          var _ := TrySend(r, Verdict(Reject));
          return;
        }
        approval := approval.(queue := approval.queue + [r]);
        approval := approval.(accepted := approval.accepted + [r]);
        return;
      }
      approval := approval.(accepted := approval.accepted + [r]);
      ActivateApprovalRequest(r);
    }

    method HandlePermissionAsk(r: Request)
      requires r.kind == Permission
      modifies this
      ensures Snapshot() == HandleAsk(old(Snapshot()), r)
    {
      hide NextPrompt, Show, AutoAllow;
      arrived := arrived + [r];
      if HasActiveInteractivePrompt() {
        if |permission.queue| >= MAX_PENDING_PROMPTS {
          var _ := TrySend(r, Permit(false));
          return;
        }
        permission := permission.(queue := permission.queue + [r]);
        permission := permission.(accepted := permission.accepted + [r]);
        return;
      }
      permission := permission.(accepted := permission.accepted + [r]);
      ActivatePermissionRequest(r);
    }

    method HandleCredentialAsk(r: Request)
      requires r.kind == Credential
      modifies this
      ensures Snapshot() == HandleAsk(old(Snapshot()), r)
    {
      hide NextPrompt, Show, AutoAllow;
      arrived := arrived + [r];
      if HasActiveInteractivePrompt() {
        if |credential.queue| >= MAX_PENDING_PROMPTS {
          var _ := TrySend(r, Access(false, "credential queue full"));
          return;
        }
        credential := credential.(queue := credential.queue + [r]);
        credential := credential.(accepted := credential.accepted + [r]);
        return;
      }
      credential := credential.(accepted := credential.accepted + [r]);
      ActivateCredentialRequest(r);
    }

    method HandleAskUser(r: Request)
      requires r.kind == Question
      modifies this
      ensures Snapshot() == HandleAsk(old(Snapshot()), r)
    {
      hide NextPrompt, Show, AutoAllow;
      arrived := arrived + [r];
      if HasActiveInteractivePrompt() {
        if |question.queue| >= MAX_PENDING_PROMPTS {
          var _ := TrySend(r, Text(""));
          return;
        }
        question := question.(queue := question.queue + [r]);
        question := question.(accepted := question.accepted + [r]);
        return;
      }
      question := question.(accepted := question.accepted + [r]);
      ActivateAskUserRequest(r);
    }

    // ----- Timers -----

    method HandleApprovalTimeout(seqNo: nat)
      modifies this
      ensures Snapshot() == HandleTimeout(old(Snapshot()), Approval, seqNo)
    {
      hide NextPrompt;
      if approval.active.Some? && approval.seqNo == seqNo {
        var _ := TrySend(approval.active.value, Verdict(Reject));
        approval := approval.(active := None);
        approval := approval.(deadline := false);
        ActivateNextPrompt();
      }
    }

    method HandlePermissionTimeout(seqNo: nat)
      modifies this
      ensures Snapshot() == HandleTimeout(old(Snapshot()), Permission, seqNo)
    {
      hide NextPrompt;
      if permission.active.Some? && permission.seqNo == seqNo {
        var _ := TrySend(permission.active.value, Permit(false));
        permission := permission.(active := None);
        permission := permission.(deadline := false);
        ActivateNextPrompt();
      }
    }

    method HandleCredentialTimeout(seqNo: nat)
      modifies this
      ensures Snapshot() == HandleTimeout(old(Snapshot()), Credential, seqNo)
    {
      hide NextPrompt;
      if credential.active.Some? && credential.seqNo == seqNo {
        var _ := TrySend(credential.active.value, Access(false, "timed out"));
        credential := credential.(active := None);
        credential := credential.(deadline := false);
        ActivateNextPrompt();
      }
    }

    method HandleAskUserTimeout(seqNo: nat)
      modifies this
      ensures Snapshot() == HandleTimeout(old(Snapshot()), Question, seqNo)
    {
      hide NextPrompt;
      if question.active.Some? && question.seqNo == seqNo {
        var _ := TrySend(question.active.value, Text(""));
        question := question.(active := None);
        question := question.(deadline := false);
        ActivateNextPrompt();
      }
    }

    method HandlePromptCountdownTick(generation: nat)
      modifies this`inflight
      ensures Snapshot() == HandleTick(old(Snapshot()), generation)
    {
      if generation != promptGeneration || !HasActiveInteractivePrompt() {
        return;
      }
      if !permission.deadline && !approval.deadline && !question.deadline && !credential.deadline {
        return;
      }
      inflight := inflight + multiset{Tick(generation)};
    }

    // ----- Keys -----

    /** Answers the permission request on screen and takes it off. */
    method AnswerPermission(allow: bool) returns (ok: bool)
      requires permission.active.Some?
      modifies this`permission, this`inbox, this`answers
      ensures ok == CanDeliver(old(Snapshot()), old(permission).active.value)
      ensures Snapshot() == Resolve(old(Snapshot()), Permission, Permit(allow))
      ensures rules == old(rules)
    {
      ok := TrySend(permission.active.value, Permit(allow));
      permission := permission.(active := None);
      permission := permission.(deadline := false);
    }

    /** Keys while a permission request is on screen. */
    method HandlePermissionResponse(key: Key, w: Surroundings)
      requires permission.active.Some?
      modifies this
      ensures Snapshot() == PermissionKey(old(Snapshot()), key, w)
    {
      hide NextPrompt;
      ApplyPermissionKey(key, w);
      ActivateNextPrompt();
    }

    method ApplyPermissionKey(key: Key, w: Surroundings)
      requires permission.active.Some?
      modifies this
      ensures Snapshot() == Apply(old(Snapshot()), PermissionChoice(old(Snapshot()), key, w))
    {
      hide Resolve, ProjectChoice;
      var r := permission.active.value;
      match key {
        case Rune(c) =>
          if c == 'y' || c == 'Y' {
            var _ := AnswerPermission(true);
          } else if c == 'n' || c == 'N' {
            var _ := AnswerPermission(false);
          } else if c == 'a' || c == 'A' || c == 's' || c == 'S' {
            var ok := AnswerPermission(true);
            if ok && r.identity != "" && w.sessionSaves {
              rules := rules + {ExactSession(r.tool, r.identity, true)};
            }
          } else if c == 'd' || c == 'D' {
            var ok := AnswerPermission(false);
            if ok && w.sessionSaves {
              rules := rules + {ToolSession(r.tool, false)};
            }
          } else if c == 'p' || c == 'P' || c == 'x' || c == 'X' {
            DecideForProject(c == 'p' || c == 'P', w);
          }
        case Esc =>
          var _ := AnswerPermission(false);
        case Enter =>
        case OtherKey =>
      }
    }

    /** A project-wide allow stores its rule before it releases the waiting tool. */
    method DecideForProject(allow: bool, w: Surroundings)
      requires permission.active.Some?
      modifies this
      ensures Snapshot() == Apply(old(Snapshot()), ProjectChoice(old(Snapshot()), allow, w))
    {
      var r := permission.active.value;
      if !w.configured || r.identity == "" {
        var _ := AnswerPermission(false);
        return;
      }
      if w.projectSaves {
        rules := rules + {Project(r.tool, r.identity, allow)};
      }
      if allow && !w.projectSaves {
        var _ := AnswerPermission(false);
        return;
      }
      var _ := AnswerPermission(allow);
    }

    method HandleApprovalResponse(key: Key)
      requires approval.active.Some?
      modifies this
      ensures Snapshot() == ApprovalKey(old(Snapshot()), key)
    {
      hide NextPrompt;
      var response := Reject;
      match key {
        case Rune(c) =>
          if c == 'y' || c == 'Y' {
            response := Approve;
          } else if c == 's' || c == 'S' || c == 'a' || c == 'A' {
            response := ApproveForSession;
          } else if c == '5' {
            response := ApproveForN;
          } else if c != 'n' && c != 'N' {
            return;
          }
        case Esc =>
        case Enter => return;
        case OtherKey => return;
      }
      var _ := TrySend(approval.active.value, Verdict(response));
      approval := approval.(active := None);
      approval := approval.(deadline := false);
      ActivateNextPrompt();
    }

    method HandleCredentialResponse(key: Key)
      requires credential.active.Some?
      modifies this
      ensures Snapshot() == CredentialKey(old(Snapshot()), key)
    {
      hide NextPrompt;
      if key == Rune('y') || key == Rune('Y') {
        var _ := TrySend(credential.active.value, Access(true, ""));
        credential := credential.(active := None);
        credential := credential.(deadline := false);
      } else if key == Rune('n') || key == Rune('N') || key == Esc {
        var _ := TrySend(credential.active.value, Access(false, "denied by user"));
        credential := credential.(active := None);
        credential := credential.(deadline := false);
      }
      ActivateNextPrompt();
    }

    method HandleAskUserResponse(key: Key, w: Surroundings)
      requires question.active.Some?
      modifies this
      ensures Snapshot() == QuestionKey(old(Snapshot()), key, w)
    {
      hide NextPrompt;
      if key == Esc || key == Enter {
        var _ := TrySend(question.active.value, Text(if key == Esc then "" else w.typed));
        question := question.(active := None);
        question := question.(deadline := false);
        ActivateNextPrompt();
      }
    }

    /** The event loop routes a key to the prompt on screen. */
    method HandleKeyMsg(key: Key, w: Surroundings)
      modifies this
      ensures Snapshot() == HandleKey(old(Snapshot()), key, w)
    {
      hide ApprovalKey, PermissionKey, CredentialKey, QuestionKey;
      if approval.active.Some? {
        HandleApprovalResponse(key);
      } else if permission.active.Some? {
        HandlePermissionResponse(key, w);
      } else if credential.active.Some? {
        HandleCredentialResponse(key);
      } else if question.active.Some? {
        HandleAskUserResponse(key, w);
      }
    }

    // ----- Teardown -----

    /** `s` with only `queue` still waiting in lane `k`. */
    static function Rest(s: State, k: Kind, queue: seq<Request>): State {
      WithLane(s, k, LaneOf(s, k).(queue := queue))
    }

    static lemma DenyStep(s: State, k: Kind, queue: seq<Request>, i: nat)
      requires i < |queue|
      ensures var rest := Rest(s, k, queue[i..]);
              && LaneOf(rest, k) == LaneOf(s, k).(queue := queue[i..])
              && queue[i..][0] == queue[i] && queue[i..][1..] == queue[i + 1..]
              && DenyQueue(rest, k) == DenyQueue(DropHead(rest, k), k)
    {
      hide DropHead;
    }

    static lemma NoneLeft(s: State, k: Kind, queue: seq<Request>)
      ensures DenyQueue(Rest(s, k, queue[|queue|..]), k) == Rest(s, k, [])
    {
      assert queue[|queue|..] == [];
      hide DropHead;
    }

    method DenyWaitingPermissions()
      modifies this`permission, this`inbox, this`answers
      ensures Snapshot() == DenyQueue(old(Snapshot()), Permission)
    {
      hide DenyQueue;
      assert Rest(Snapshot(), Permission, permission.queue[0..]) == Snapshot();
      for i := 0 to |permission.queue|
        invariant permission.queue == old(permission.queue)
        invariant DenyQueue(Rest(Snapshot(), Permission, permission.queue[i..]), Permission)
            == DenyQueue(old(Snapshot()), Permission)
      {
        DenyStep(Snapshot(), Permission, permission.queue, i);
        permission := Depart(permission, permission.queue[i], Dropped, 0);
        var _ := TrySend(permission.queue[i], Permit(false));
      }
      NoneLeft(Snapshot(), Permission, permission.queue);
      permission := permission.(queue := []);
    }

    method DenyWaitingApprovals()
      modifies this`approval, this`inbox, this`answers
      ensures Snapshot() == DenyQueue(old(Snapshot()), Approval)
    {
      hide DenyQueue;
      assert Rest(Snapshot(), Approval, approval.queue[0..]) == Snapshot();
      for i := 0 to |approval.queue|
        invariant approval.queue == old(approval.queue)
        invariant DenyQueue(Rest(Snapshot(), Approval, approval.queue[i..]), Approval)
            == DenyQueue(old(Snapshot()), Approval)
      {
        DenyStep(Snapshot(), Approval, approval.queue, i);
        approval := Depart(approval, approval.queue[i], Dropped, 0);
        var _ := TrySend(approval.queue[i], Verdict(Reject));
      }
      NoneLeft(Snapshot(), Approval, approval.queue);
      approval := approval.(queue := []);
    }

    method DenyWaitingQuestions()
      modifies this`question, this`inbox, this`answers
      ensures Snapshot() == DenyQueue(old(Snapshot()), Question)
    {
      hide DenyQueue;
      assert Rest(Snapshot(), Question, question.queue[0..]) == Snapshot();
      for i := 0 to |question.queue|
        invariant question.queue == old(question.queue)
        invariant DenyQueue(Rest(Snapshot(), Question, question.queue[i..]), Question)
            == DenyQueue(old(Snapshot()), Question)
      {
        DenyStep(Snapshot(), Question, question.queue, i);
        question := Depart(question, question.queue[i], Dropped, 0);
        var _ := TrySend(question.queue[i], Text(""));
      }
      NoneLeft(Snapshot(), Question, question.queue);
      question := question.(queue := []);
    }

    method DenyWaitingCredentials()
      modifies this`credential, this`inbox, this`answers
      ensures Snapshot() == DenyQueue(old(Snapshot()), Credential)
    {
      hide DenyQueue;
      assert Rest(Snapshot(), Credential, credential.queue[0..]) == Snapshot();
      for i := 0 to |credential.queue|
        invariant credential.queue == old(credential.queue)
        invariant DenyQueue(Rest(Snapshot(), Credential, credential.queue[i..]), Credential)
            == DenyQueue(old(Snapshot()), Credential)
      {
        DenyStep(Snapshot(), Credential, credential.queue, i);
        credential := Depart(credential, credential.queue[i], Dropped, 0);
        var _ := TrySend(credential.queue[i], Access(false, "stream ended"));
      }
      NoneLeft(Snapshot(), Credential, credential.queue);
      credential := credential.(queue := []);
    }

    method ClearPermissionRequests()
      modifies this
      ensures forall reason :: Snapshot() == DenyQueue(DenyActive(old(Snapshot()), Permission, reason), Permission)
    {
      hide DenyQueue;
      if permission.active.Some? {
        var _ := TrySend(permission.active.value, Permit(false));
      }
      permission := permission.(active := None, deadline := false);
      assert forall reason :: Snapshot() == DenyActive(old(Snapshot()), Permission, reason);
      DenyWaitingPermissions();
    }

    method ClearApprovalRequests()
      modifies this
      ensures forall reason :: Snapshot() == DenyQueue(DenyActive(old(Snapshot()), Approval, reason), Approval)
    {
      hide DenyQueue;
      if approval.active.Some? {
        var _ := TrySend(approval.active.value, Verdict(Reject));
      }
      approval := approval.(active := None, deadline := false);
      assert forall reason :: Snapshot() == DenyActive(old(Snapshot()), Approval, reason);
      DenyWaitingApprovals();
    }

    method ClearDeferredPrompts()
      modifies this
      ensures Snapshot() == DenyQueue(DenyQueue(old(Snapshot()), Question), Credential)
    {
      hide DenyQueue;
      DenyWaitingQuestions();
      DenyWaitingCredentials();
    }

    /** Rejects every prompt before the screen can disappear: at stream end, stream error and quit. */
    method ClearInteractivePrompts(reason: string)
      modifies this
      ensures Snapshot() == Teardown(old(Snapshot()), reason)
    {
      hide DenyQueue, DenyActive;
      ClearPermissionRequests();
      ClearApprovalRequests();
      ClearDeferredPrompts();
      DenyQuestionOnScreen(reason);
      DenyCredentialOnScreen(reason);
    }

    method DenyQuestionOnScreen(reason: string)
      modifies this
      ensures Snapshot() == DenyActive(old(Snapshot()), Question, reason)
    {
      if question.active.Some? {
        var _ := TrySend(question.active.value, Text(""));
        question := question.(active := None);
      }
      question := question.(deadline := false);
    }

    method DenyCredentialOnScreen(reason: string)
      modifies this
      ensures Snapshot() == DenyActive(old(Snapshot()), Credential, reason)
    {
      if credential.active.Some? {
        var _ := TrySend(credential.active.value, Access(false, reason));
        credential := credential.(active := None);
      }
      credential := credential.(deadline := false);
    }

    // ----- The event loop -----

    /** One message of the event loop is one step of the state machine, and keeps the invariant. */
    method Update(e: Event)
      requires Enabled(Snapshot(), e) && Inv(Snapshot())
      modifies this
      ensures Snapshot() == Step(old(Snapshot()), e)
      ensures Inv(Snapshot())
    {
      hide Inv, HandleAsk, HandleKey, HandleTimeout, HandleTick, Teardown;
      StepKeeps(Snapshot(), e);
      match e {
        case Ask(r) =>
          match r.kind {
            case Approval => HandleApprovalAsk(r);
            case Permission => HandlePermissionAsk(r);
            case Credential => HandleCredentialAsk(r);
            case Question => HandleAskUser(r);
          }
        case Press(key, w) => HandleKeyMsg(key, w);
        case Fires(t) =>
          inflight := inflight - multiset{t};
          match t {
            case Timeout(Approval, n) => HandleApprovalTimeout(n);
            case Timeout(Permission, n) => HandlePermissionTimeout(n);
            case Timeout(Credential, n) => HandleCredentialTimeout(n);
            case Timeout(Question, n) => HandleAskUserTimeout(n);
            case Tick(g) => HandlePromptCountdownTick(g);
          }
        case TearDown(reason) => ClearInteractivePrompts(reason);
        case Receive(id) => inbox := inbox - {id};
        case SetAutonomous(on) => autonomous := on;
      }
    }
  }
}
