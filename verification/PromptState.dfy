/** The interactive prompt scheduler as a pure state machine.

  Four kinds of blocking request share one keyboard.  A `State` holds, for each kind, the active
  request, the bounded queue behind it and the counter that numbers its activations; beside them
  stand the environment (reply channels, rule stores, timers in flight) and the history that the
  whole-run properties speak about.  Every message the event loop can deliver is one `Event`. */
module PromptState {
  import opened Wrappers

  /** The kinds of request, highest priority first. */
  datatype Kind = Approval | Permission | Credential | Question

  datatype ApprovalResponse = Reject | Approve | ApproveForSession | ApproveForN

  /** What travels back on a reply channel. */
  datatype Reply =
    | Permit(allowed: bool)
    | Verdict(response: ApprovalResponse)
    | Access(approved: bool, reason: string)
    | Text(text: string)

  /** A request and its reply channel, named by `id`.  `slot` says that the channel has one free
    slot when it is created; a permission request may arrive with no channel to send on.  `identity`
    is the trimmed identity of the action, or its trimmed summary when the identity is blank. */
  datatype Request = Request(kind: Kind, id: nat, slot: bool, tool: string, identity: string)

  datatype Timer = Timeout(kind: Kind, seqNo: nat) | Tick(generation: nat)

  datatype Rule =
    | ExactSession(tool: string, identity: string, allow: bool)
    | ToolSession(tool: string, allow: bool)
    | Project(tool: string, identity: string, allow: bool)

  /** History: how an accepted request left the waiting line, and how many requests were waiting in
    queues of higher priority at that moment. */
  datatype How = Activated | AutoAllowed | Dropped
  datatype Departure = Departure(req: Request, how: How, ahead: nat)

  /** History: one attempt to answer a request. */
  datatype Answered = Answered(req: Request, reply: Reply, delivered: bool)

  datatype Lane = Lane(
    active: Option<Request>,
    queue: seq<Request>,
    seqNo: nat,
    deadline: bool,
    accepted: seq<Request>,
    left: seq<Departure>)

  datatype State = State(
    approval: Lane,
    permission: Lane,
    credential: Lane,
    question: Lane,
    generation: nat,
    autonomous: bool,
    inbox: map<nat, Reply>,
    rules: set<Rule>,
    inflight: multiset<Timer>,
    arrived: seq<Request>,
    answers: seq<Answered>)

  const MAX_PENDING_PROMPTS: nat := 32

  const EMPTY_LANE := Lane(None, [], 0, false, [], [])

  function Initial(autonomous: bool): State {
    State(EMPTY_LANE, EMPTY_LANE, EMPTY_LANE, EMPTY_LANE, 0, autonomous, map[], {}, multiset{}, [], [])
  }

  function LaneOf(s: State, k: Kind): Lane {
    match k
    case Approval => s.approval
    case Permission => s.permission
    case Credential => s.credential
    case Question => s.question
  }

  function WithLane(s: State, k: Kind, l: Lane): State {
    match k
    case Approval => s.(approval := l)
    case Permission => s.(permission := l)
    case Credential => s.(credential := l)
    case Question => s.(question := l)
  }

  predicate Busy(s: State) {
    s.permission.active.Some? || s.approval.active.Some? || s.question.active.Some? || s.credential.active.Some?
  }

  /** How many requests wait in queues of higher priority than `k`. */
  function Ahead(s: State, k: Kind): nat {
    match k
    case Approval => 0
    case Permission => |s.approval.queue|
    case Credential => |s.approval.queue| + |s.permission.queue|
    case Question => |s.approval.queue| + |s.permission.queue| + |s.credential.queue|
  }

  // ----- Replies -----

  /** The reply that refuses a request of each kind. */
  function Denial(k: Kind, reason: string): Reply {
    match k
    case Approval => Verdict(Reject)
    case Permission => Permit(false)
    case Credential => Access(false, reason)
    case Question => Text("")
  }

  predicate Grants(reply: Reply) {
    match reply
    case Permit(allowed) => allowed
    case Verdict(response) => response != Reject
    case Access(approved, _) => approved
    case Text(text) => text != ""
  }

  /** The non-blocking send succeeds exactly when the channel's slot is free. */
  predicate CanDeliver(s: State, r: Request) {
    r.slot && r.id !in s.inbox
  }

  function Send(s: State, r: Request, reply: Reply): State {
    var ok := CanDeliver(s, r);
    s.(answers := s.answers + [Answered(r, reply, ok)],
       inbox := if ok then s.inbox[r.id := reply] else s.inbox)
  }

  // ----- Activation -----

  function Depart(l: Lane, r: Request, how: How, ahead: nat): Lane {
    l.(left := l.left + [Departure(r, how, ahead)])
  }

  function Pop(s: State, k: Kind): State
    requires LaneOf(s, k).queue != []
  {
    WithLane(s, k, LaneOf(s, k).(queue := LaneOf(s, k).queue[1..]))
  }

  /** Puts `r` on screen and arms its timeout and its first countdown tick. */
  function Show(s: State, k: Kind, r: Request): State {
    var l := LaneOf(s, k);
    var shown := Depart(l.(active := Some(r), seqNo := l.seqNo + 1, deadline := true), r, Activated, Ahead(s, k));
    WithLane(s, k, shown)
      .(generation := s.generation + 1,
        inflight := s.inflight + multiset{Timeout(k, l.seqNo + 1), Tick(s.generation + 1)})
  }

  /** Autonomous mode answers a permission request without showing it. */
  function AutoAllow(s: State, r: Request): State {
    Send(WithLane(s, Permission, Depart(s.permission, r, AutoAllowed, Ahead(s, Permission))), r, Permit(true))
  }

  function Start(s: State, k: Kind, r: Request): State
    decreases |s.permission.queue|, 1
  {
    if k == Permission && s.autonomous then NextPrompt(AutoAllow(s, r)) else Show(s, k, r)
  }

  function NextPrompt(s: State): State
    decreases |s.permission.queue|, 0
  {
    if Busy(s) then s
    else if s.approval.queue != [] then Show(Pop(s, Approval), Approval, s.approval.queue[0])
    else if s.permission.queue != [] then Start(Pop(s, Permission), Permission, s.permission.queue[0])
    else if s.credential.queue != [] then Show(Pop(s, Credential), Credential, s.credential.queue[0])
    else if s.question.queue != [] then Show(Pop(s, Question), Question, s.question.queue[0])
    else s
  }

  // ----- Arrival -----

  function Accept(s: State, r: Request): State {
    var l := LaneOf(s, r.kind);
    WithLane(s, r.kind, l.(accepted := l.accepted + [r]))
  }

  function Enqueue(s: State, r: Request): State {
    var l := LaneOf(s, r.kind);
    WithLane(s, r.kind, l.(accepted := l.accepted + [r], queue := l.queue + [r]))
  }

  function Arrive(s: State, r: Request): State {
    s.(arrived := s.arrived + [r])
  }

  function HandleAsk(s: State, r: Request): State {
    var s1 := Arrive(s, r);
    if Busy(s1) then
      if |LaneOf(s1, r.kind).queue| >= MAX_PENDING_PROMPTS then Send(s1, r, Denial(r.kind, "credential queue full"))
      else Enqueue(s1, r)
    else Start(Accept(s1, r), r.kind, r)
  }

  // ----- Resolution -----

  function Close(s: State, k: Kind): State {
    WithLane(s, k, LaneOf(s, k).(active := None, deadline := false))
  }

  /** Answers the active request of kind `k` and takes it off the screen. */
  function Resolve(s: State, k: Kind, reply: Reply): State
    requires LaneOf(s, k).active.Some?
  {
    Close(Send(s, LaneOf(s, k).active.value, reply), k)
  }

  function HandleTimeout(s: State, k: Kind, n: nat): State {
    if LaneOf(s, k).active.Some? && LaneOf(s, k).seqNo == n
    then NextPrompt(Resolve(s, k, Denial(k, "timed out")))
    else s
  }

  function HandleTick(s: State, g: nat): State {
    if g != s.generation || !Busy(s) then s
    else if !s.permission.deadline && !s.approval.deadline && !s.question.deadline && !s.credential.deadline then s
    else s.(inflight := s.inflight + multiset{Tick(g)})
  }

  // ----- Keys -----

  datatype Key = Rune(c: char) | Esc | Enter | OtherKey

  /** What the outside world contributes to a key press: whether project rules are configured,
    whether each store accepts a new rule, and the trimmed text in the input line. */
  datatype Surroundings = Surroundings(configured: bool, projectSaves: bool, sessionSaves: bool, typed: string)

  function WithRule(rules: set<Rule>, ok: bool, rule: Rule): set<Rule> {
    if ok then rules + {rule} else rules
  }

  /** What a key decides about the permission request on screen: the answer, and the rules as they
    stand once the answer is sent. */
  datatype Choice = Ignore | Decide(allow: bool, rules: set<Rule>)

  function PermissionChoice(s: State, key: Key, w: Surroundings): Choice
    requires s.permission.active.Some?
  {
    var r := s.permission.active.value;
    match key
    case Rune('y') | Rune('Y') => Decide(true, s.rules)
    case Rune('n') | Rune('N') | Esc => Decide(false, s.rules)
    case Rune('a') | Rune('A') | Rune('s') | Rune('S') =>
      Decide(true, WithRule(s.rules, CanDeliver(s, r) && r.identity != "" && w.sessionSaves,
                            ExactSession(r.tool, r.identity, true)))
    case Rune('d') | Rune('D') =>
      Decide(false, WithRule(s.rules, CanDeliver(s, r) && w.sessionSaves, ToolSession(r.tool, false)))
    case Rune('p') | Rune('P') => ProjectChoice(s, true, w)
    case Rune('x') | Rune('X') => ProjectChoice(s, false, w)
    case _ => Ignore
  }

  /** A project-wide allow is granted only when its rule could be stored. */
  function ProjectChoice(s: State, allow: bool, w: Surroundings): Choice
    requires s.permission.active.Some?
  {
    var r := s.permission.active.value;
    if !w.configured || r.identity == "" then Decide(false, s.rules)
    else if allow && !w.projectSaves then Decide(false, s.rules)
    else Decide(allow, WithRule(s.rules, w.projectSaves, Project(r.tool, r.identity, allow)))
  }

  function Apply(s: State, choice: Choice): State
    requires s.permission.active.Some?
  {
    match choice
    case Ignore => s
    case Decide(allow, rules) => Resolve(s, Permission, Permit(allow)).(rules := rules)
  }

  function PermissionKey(s: State, key: Key, w: Surroundings): State
    requires s.permission.active.Some?
  {
    NextPrompt(Apply(s, PermissionChoice(s, key, w)))
  }

  function ApprovalKey(s: State, key: Key): State
    requires s.approval.active.Some?
  {
    match key
    case Rune('y') | Rune('Y') => NextPrompt(Resolve(s, Approval, Verdict(Approve)))
    case Rune('s') | Rune('S') | Rune('a') | Rune('A') => NextPrompt(Resolve(s, Approval, Verdict(ApproveForSession)))
    case Rune('5') => NextPrompt(Resolve(s, Approval, Verdict(ApproveForN)))
    case Rune('n') | Rune('N') | Esc => NextPrompt(Resolve(s, Approval, Verdict(Reject)))
    case _ => s
  }

  function CredentialKey(s: State, key: Key): State
    requires s.credential.active.Some?
  {
    NextPrompt(
      match key
      case Rune('y') | Rune('Y') => Resolve(s, Credential, Access(true, ""))
      case Rune('n') | Rune('N') | Esc => Resolve(s, Credential, Access(false, "denied by user"))
      case _ => s)
  }

  function QuestionKey(s: State, key: Key, w: Surroundings): State
    requires s.question.active.Some?
  {
    match key
    case Esc => NextPrompt(Resolve(s, Question, Text("")))
    case Enter => NextPrompt(Resolve(s, Question, Text(w.typed)))
    case _ => s
  }

  function HandleKey(s: State, key: Key, w: Surroundings): State {
    if s.approval.active.Some? then ApprovalKey(s, key)
    else if s.permission.active.Some? then PermissionKey(s, key, w)
    else if s.credential.active.Some? then CredentialKey(s, key)
    else if s.question.active.Some? then QuestionKey(s, key, w)
    else s
  }

  // ----- Teardown -----

  function DenyActive(s: State, k: Kind, reason: string): State {
    if LaneOf(s, k).active.Some? then Resolve(s, k, Denial(k, reason)) else Close(s, k)
  }

  function DropHead(s: State, k: Kind): State
    requires LaneOf(s, k).queue != []
  {
    var l := LaneOf(s, k);
    Send(WithLane(s, k, Depart(l.(queue := l.queue[1..]), l.queue[0], Dropped, 0)),
         l.queue[0], Denial(k, "stream ended"))
  }

  function DenyQueue(s: State, k: Kind): State
    decreases |LaneOf(s, k).queue|
  {
    if LaneOf(s, k).queue == [] then s else DenyQueue(DropHead(s, k), k)
  }

  function Teardown(s: State, reason: string): State {
    var s1 := DenyQueue(DenyActive(s, Permission, reason), Permission);
    var s2 := DenyQueue(DenyActive(s1, Approval, reason), Approval);
    var s3 := DenyQueue(DenyQueue(s2, Question), Credential);
    DenyActive(DenyActive(s3, Question, reason), Credential, reason)
  }

  // ----- Events and runs -----

  datatype Event =
    | Ask(req: Request)
    | Press(key: Key, world: Surroundings)
    | Fires(timer: Timer)
    | TearDown(reason: string)
    | Receive(id: nat)
    | SetAutonomous(on: bool)

  function Step(s: State, e: Event): State {
    match e
    case Ask(r) => HandleAsk(s, r)
    case Press(key, w) => HandleKey(s, key, w)
    case Fires(t) =>
      var s1 := s.(inflight := s.inflight - multiset{t});
      (match t
       case Timeout(k, n) => HandleTimeout(s1, k, n)
       case Tick(g) => HandleTick(s1, g))
    case TearDown(reason) => Teardown(s, reason)
    case Receive(id) => s.(inbox := s.inbox - {id})
    case SetAutonomous(on) => s.(autonomous := on)
  }

  /** What the environment guarantees: an arriving request brings a channel of its own (with a free
    slot, except that a permission request may bring none), and only armed timers fire. */
  predicate Enabled(s: State, e: Event) {
    match e
    case Ask(r) => (forall a :: a in s.arrived ==> a.id != r.id) && (r.kind != Permission ==> r.slot)
    case Fires(t) => t in s.inflight
    case _ => true
  }

  function Run(s: State, events: seq<Event>): State {
    if events == [] then s else Step(Run(s, events[..|events| - 1]), events[|events| - 1])
  }

  predicate Feasible(s: State, events: seq<Event>) {
    events == [] ||
    (Feasible(s, events[..|events| - 1]) && Enabled(Run(s, events[..|events| - 1]), events[|events| - 1]))
  }
}
