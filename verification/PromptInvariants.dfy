/** What every step of the prompt scheduler keeps. */
module PromptInvariants {
  import opened Wrappers
  import opened PromptState

  // ----- The invariant -----

  function Requests(answers: seq<Answered>): (rs: seq<Request>)
    ensures |rs| == |answers|
    ensures forall i :: 0 <= i < |answers| ==> rs[i] == answers[i].req
  {
    seq(|answers|, i requires 0 <= i < |answers| => answers[i].req)
  }

  function Gone(left: seq<Departure>): (rs: seq<Request>)
    ensures |rs| == |left|
    ensures forall i :: 0 <= i < |left| ==> rs[i] == left[i].req
  {
    seq(|left|, i requires 0 <= i < |left| => left[i].req)
  }

  /** The requests that were put on screen, in order. */
  function Shown(left: seq<Departure>): seq<Request> {
    if left == [] then []
    else
      var last := left[|left| - 1];
      Shown(left[..|left| - 1]) + (if last.how == Activated then [last.req] else [])
  }

  function LiveIn(l: Lane): multiset<Request> {
    (if l.active.Some? then multiset{l.active.value} else multiset{}) + multiset(l.queue)
  }

  /** Every request that is on screen or waiting. */
  function Live(s: State): multiset<Request> {
    LiveIn(s.approval) + LiveIn(s.permission) + LiveIn(s.credential) + LiveIn(s.question)
  }

  /** At most one prompt is on screen. */
  ghost predicate Exclusive(s: State) {
    forall j, k :: LaneOf(s, j).active.Some? && LaneOf(s, k).active.Some? ==> j == k
  }

  ghost predicate LaneOk(l: Lane, k: Kind) {
    && |l.queue| <= MAX_PENDING_PROMPTS
    && (l.deadline <==> l.active.Some?)
    && (forall r :: r in l.accepted ==> r.kind == k)
    && Gone(l.left) + l.queue == l.accepted
    && |Shown(l.left)| == l.seqNo
    && (l.active.Some? ==> l.seqNo > 0 && Shown(l.left)[l.seqNo - 1] == l.active.value)
    && (forall d :: d in l.left && d.how != Dropped ==> d.ahead == 0)
  }

  ghost predicate LanesOk(s: State) {
    forall k :: LaneOk(LaneOf(s, k), k)
  }

  ghost predicate UniqueIds(rs: seq<Request>) {
    forall i, j :: 0 <= i < j < |rs| ==> rs[i].id != rs[j].id
  }

  /** Every request that arrived is live or answered, counted exactly. */
  ghost predicate Conserved(s: State) {
    && UniqueIds(s.arrived)
    && (forall r :: r in s.arrived && r.kind != Permission ==> r.slot)
    && multiset(s.arrived) == Live(s) + multiset(Requests(s.answers))
  }

  ghost predicate InAnswers(answers: seq<Answered>, id: nat, reply: Reply) {
    exists i :: 0 <= i < |answers| && answers[i].req.id == id && answers[i].reply == reply && answers[i].delivered
  }

  /** Every attempt on a channel with a slot succeeded, and what sits in a channel is the answer. */
  ghost predicate ChannelsOk(s: State) {
    && (forall i :: 0 <= i < |s.answers| ==> (s.answers[i].delivered <==> s.answers[i].req.slot))
    && (forall id :: id in s.inbox ==> InAnswers(s.answers, id, s.inbox[id]))
  }

  /** No timer is duplicated, and none is numbered ahead of its counter. */
  ghost predicate TimersBounded(s: State) {
    && (forall t :: s.inflight[t] <= 1)
    && (forall k, n: nat :: Timeout(k, n) in s.inflight ==> n <= LaneOf(s, k).seqNo)
    && (forall g: nat :: Tick(g) in s.inflight ==> g <= s.generation)
  }

  /** A prompt on screen has its own timeout and the current countdown tick in flight. */
  ghost predicate TimersLive(s: State) {
    forall k :: LaneOf(s, k).active.Some? ==>
      Timeout(k, LaneOf(s, k).seqNo) in s.inflight && Tick(s.generation) in s.inflight
  }

  ghost predicate Authorises(answers: seq<Answered>, tool: string, identity: string) {
    exists i :: 0 <= i < |answers| && answers[i].req.tool == tool && answers[i].req.identity == identity
                && answers[i].reply == Permit(true)
  }

  /** No allow rule covers a whole tool, and each names an action that was answered with an allow. */
  ghost predicate RuleBacked(rule: Rule, answers: seq<Answered>) {
    rule.allow ==> !rule.ToolSession? && Authorises(answers, rule.tool, rule.identity)
  }

  ghost predicate RulesBacked(s: State) {
    forall rule :: rule in s.rules ==> RuleBacked(rule, s.answers)
  }

  ghost predicate Base(s: State) {
    Exclusive(s) && LanesOk(s) && Conserved(s) && ChannelsOk(s) && TimersBounded(s) && RulesBacked(s)
  }

  ghost predicate Core(s: State) {
    Base(s) && TimersLive(s)
  }

  ghost predicate NoneWaiting(s: State) {
    forall k :: LaneOf(s, k).queue == []
  }

  ghost predicate Inv(s: State) {
    Core(s) && (!Busy(s) ==> NoneWaiting(s))
  }

  // ----- Sequences -----

  lemma BusyMeansActive(s: State)
    ensures Busy(s) <==> exists k :: LaneOf(s, k).active.Some?
  {
    if Busy(s) {
      assert LaneOf(s, Approval).active.Some? || LaneOf(s, Permission).active.Some?
        || LaneOf(s, Credential).active.Some? || LaneOf(s, Question).active.Some?;
    }
  }

  lemma GoneAppend(left: seq<Departure>, d: Departure)
    ensures Gone(left + [d]) == Gone(left) + [d.req]
    ensures Shown(left + [d]) == Shown(left) + (if d.how == Activated then [d.req] else [])
  {
    assert (left + [d])[..|left|] == left;
  }

  lemma RequestsAppend(answers: seq<Answered>, a: Answered)
    ensures Requests(answers + [a]) == Requests(answers) + [a.req]
  {
  }

  /** With unique channels, a request occurs once, and its channel names it. */
  lemma UniqueMeansOnce(rs: seq<Request>, r: Request)
    requires UniqueIds(rs)
    ensures multiset(rs)[r] <= 1
    ensures forall q :: q in rs && r in rs && q.id == r.id ==> q == r
    decreases |rs|
  {
    if rs != [] {
      var init, last := rs[..|rs| - 1], rs[|rs| - 1];
      assert rs == init + [last];
      UniqueMeansOnce(init, r);
      assert r == last ==> r !in init;
    }
  }

  lemma UniqueAppend(rs: seq<Request>, r: Request)
    requires UniqueIds(rs) && forall a :: a in rs ==> a.id != r.id
    ensures UniqueIds(rs + [r])
  {
  }

  /** A live request has not been answered: its channel is still untouched. */
  lemma LiveIsUnanswered(s: State, r: Request)
    requires Conserved(s) && r in Live(s)
    ensures r in s.arrived
    ensures forall i :: 0 <= i < |s.answers| ==> s.answers[i].req.id != r.id
  {
    UniqueMeansOnce(s.arrived, r);
    assert r in multiset(s.arrived);
    forall i | 0 <= i < |s.answers|
      ensures s.answers[i].req.id != r.id
    {
      var q := s.answers[i].req;
      assert q == Requests(s.answers)[i];
      assert q in multiset(Requests(s.answers));
      assert q in multiset(s.arrived);
      assert q == r ==> multiset(s.arrived)[r] >= 2;
    }
  }

  // ----- Sending -----

  /** The first attempt on a channel succeeds exactly when the channel has a slot. */
  lemma SendKeepsChannels(s: State, r: Request, reply: Reply)
    requires ChannelsOk(s)
    requires forall i :: 0 <= i < |s.answers| ==> s.answers[i].req.id != r.id
    ensures ChannelsOk(Send(s, r, reply))
    ensures CanDeliver(s, r) <==> r.slot
  {
    var s' := Send(s, r, reply);
    assert r.id !in s.inbox;
    forall id | id in s'.inbox
      ensures InAnswers(s'.answers, id, s'.inbox[id])
    {
      if id == r.id {
        assert s'.answers[|s.answers|] == Answered(r, reply, true);
      } else {
        assert InAnswers(s.answers, id, s.inbox[id]);
        var i :| 0 <= i < |s.answers| && s.answers[i].req.id == id
                 && s.answers[i].reply == s.inbox[id] && s.answers[i].delivered;
        assert s'.answers[i] == s.answers[i];
      }
    }
  }

  lemma BackedStays(rule: Rule, answers: seq<Answered>, a: Answered)
    requires RuleBacked(rule, answers)
    ensures RuleBacked(rule, answers + [a])
  {
    if rule.allow {
      var i :| 0 <= i < |answers| && answers[i].req.tool == rule.tool && answers[i].req.identity == rule.identity
               && answers[i].reply == Permit(true);
      assert (answers + [a])[i] == answers[i];
    }
  }

  lemma SendKeepsRules(s: State, r: Request, reply: Reply)
    requires RulesBacked(s)
    ensures RulesBacked(Send(s, r, reply))
  {
    forall rule | rule in s.rules
      ensures RuleBacked(rule, Send(s, r, reply).answers)
    {
      BackedStays(rule, s.answers, Answered(r, reply, CanDeliver(s, r)));
    }
  }

  // ----- Replacing one lane -----

  /** `s'` has lane `l` in place of lane `k` of `s`, and the other lanes of `s`. */
  ghost predicate Replaces(s: State, s': State, k: Kind, l: Lane) {
    LaneOf(s', k) == l && forall j :: j != k ==> LaneOf(s', j) == LaneOf(s, j)
  }

  lemma ReplaceLive(s: State, s': State, k: Kind, l: Lane)
    requires Replaces(s, s', k, l)
    ensures Live(s') + LiveIn(LaneOf(s, k)) == Live(s) + LiveIn(l)
  {
    hide LiveIn;
    assert s.approval == LaneOf(s, Approval) && s'.approval == LaneOf(s', Approval);
    assert s.permission == LaneOf(s, Permission) && s'.permission == LaneOf(s', Permission);
    assert s.credential == LaneOf(s, Credential) && s'.credential == LaneOf(s', Credential);
    assert s.question == LaneOf(s, Question) && s'.question == LaneOf(s', Question);
  }

  lemma Cancel(a: multiset<Request>, b: multiset<Request>, c: multiset<Request>)
    requires a + c == b + c
    ensures a == b
  {
    forall x ensures a[x] == b[x] {
      assert (a + c)[x] == (b + c)[x];
    }
  }

  /** Lane `k` lost exactly the live request `r`. */
  lemma ReplaceLoses(s: State, s': State, k: Kind, l: Lane, r: Request)
    requires Replaces(s, s', k, l) && LiveIn(LaneOf(s, k)) == LiveIn(l) + multiset{r}
    ensures Live(s) == Live(s') + multiset{r}
  {
    hide LiveIn, Live;
    ReplaceLive(s, s', k, l);
    Cancel(Live(s), Live(s') + multiset{r}, LiveIn(l));
  }

  lemma ReplaceLanes(s: State, s': State, k: Kind, l: Lane)
    requires LanesOk(s) && LaneOk(l, k) && Replaces(s, s', k, l)
    ensures LanesOk(s')
  {
    forall j ensures LaneOk(LaneOf(s', j), j) {
      assert LaneOk(LaneOf(s, j), j);
    }
  }

  /** `s'` carries the answer that `Send` records on `s`. */
  ghost predicate SentOn(s: State, s': State, r: Request, reply: Reply) {
    && s'.arrived == s.arrived && s'.rules == s.rules
    && s'.answers == Send(s, r, reply).answers && s'.inbox == Send(s, r, reply).inbox
  }

  /** One live request is answered. */
  lemma AnswerKeeps(s: State, s': State, r: Request, reply: Reply)
    requires Conserved(s) && ChannelsOk(s) && RulesBacked(s)
    requires SentOn(s, s', r, reply) && Live(s) == Live(s') + multiset{r}
    ensures Conserved(s') && ChannelsOk(s') && RulesBacked(s')
    ensures CanDeliver(s, r) <==> r.slot
  {
    hide UniqueIds, InAnswers, LiveIn, RuleBacked;
    assert r in Live(s);
    LiveIsUnanswered(s, r);
    SendKeepsChannels(s, r, reply);
    SendKeepsRules(s, r, reply);
    RequestsAppend(s.answers, Answered(r, reply, CanDeliver(s, r)));
    assert ChannelsOk(Send(s, r, reply)) && RulesBacked(Send(s, r, reply));
    assert multiset(Requests(s'.answers)) == multiset(Requests(s.answers)) + multiset{r};
  }

  /** Moving live requests about changes no history. */
  lemma MoveKeeps(s: State, s': State)
    requires Conserved(s) && ChannelsOk(s) && RulesBacked(s) && Live(s') == Live(s)
    requires s'.arrived == s.arrived && s'.rules == s.rules && s'.answers == s.answers && s'.inbox == s.inbox
    ensures Conserved(s') && ChannelsOk(s') && RulesBacked(s')
  {
  }

  // ----- Single transitions -----

  lemma CloseLane(l: Lane, k: Kind)
    requires LaneOk(l, k) && l.active.Some?
    ensures LaneOk(l.(active := None, deadline := false), k)
    ensures LiveIn(l) == LiveIn(l.(active := None, deadline := false)) + multiset{l.active.value}
  {
  }

  lemma CloseKeepsTimers(s: State, s': State, k: Kind)
    requires Exclusive(s) && TimersBounded(s) && LaneOf(s, k).active.Some?
    requires Replaces(s, s', k, LaneOf(s, k).(active := None, deadline := false))
    requires s'.inflight == s.inflight && s'.generation == s.generation
    ensures Exclusive(s') && TimersBounded(s') && TimersLive(s') && !Busy(s')
  {
    forall j ensures LaneOf(s', j).active.None? && LaneOf(s', j).seqNo == LaneOf(s, j).seqNo {
    }
    BusyMeansActive(s');
  }

  /** Answering the active prompt frees the screen and keeps everything else. */
  lemma ResolveKeeps(s: State, k: Kind, reply: Reply)
    requires Base(s) && LaneOf(s, k).active.Some?
    ensures Core(Resolve(s, k, reply)) && !Busy(Resolve(s, k, reply))
    ensures CanDeliver(s, LaneOf(s, k).active.value) <==> LaneOf(s, k).active.value.slot
  {
    hide LaneOk, Live, LiveIn, ChannelsOk, RulesBacked, TimersBounded, TimersLive, Conserved, Exclusive;
    var l := LaneOf(s, k);
    var s' := Resolve(s, k, reply);
    var l' := l.(active := None, deadline := false);
    CloseLane(l, k);
    ReplaceLanes(s, s', k, l');
    ReplaceLoses(s, s', k, l', l.active.value);
    AnswerKeeps(s, s', l.active.value, reply);
    CloseKeepsTimers(s, s', k);
  }

  function Head(l: Lane): Request
    requires l.queue != []
  {
    l.queue[0]
  }

  /** The lane after its head left the queue, in any of the three ways. */
  lemma LeaveLane(l: Lane, k: Kind, how: How)
    requires LaneOk(l, k) && l.queue != [] && how != Activated
    ensures LaneOk(Depart(l.(queue := l.queue[1..]), Head(l), how, 0), k)
    ensures LiveIn(l) == LiveIn(Depart(l.(queue := l.queue[1..]), Head(l), how, 0)) + multiset{Head(l)}
  {
    hide Gone, Shown;
    var (head, rest) := (Head(l), l.queue[1..]);
    GoneAppend(l.left, Departure(head, how, 0));
    assert l.queue == [head] + rest;
    assert Gone(l.left) + ([head] + rest) == (Gone(l.left) + [head]) + rest;
    assert Shown(l.left) + [] == Shown(l.left);
  }

  function ShownLane(l: Lane): Lane
    requires l.queue != []
  {
    Depart(l.(queue := l.queue[1..], active := Some(Head(l)), seqNo := l.seqNo + 1, deadline := true),
           Head(l), Activated, 0)
  }

  lemma ShowLane(l: Lane, k: Kind)
    requires LaneOk(l, k) && l.queue != [] && l.active.None?
    ensures LaneOk(ShownLane(l), k) && LiveIn(ShownLane(l)) == LiveIn(l)
  {
    GoneAppend(l.left, Departure(Head(l), Activated, 0));
    assert l.queue == [Head(l)] + l.queue[1..];
  }

  lemma ShowKeepsTimers(s: State, s': State, k: Kind)
    requires TimersBounded(s) && LaneOf(s, k).queue != []
    requires forall j :: LaneOf(s, j).active.None?
    requires Replaces(s, s', k, ShownLane(LaneOf(s, k)))
    requires s'.generation == s.generation + 1
    requires s'.inflight == s.inflight + multiset{Timeout(k, LaneOf(s, k).seqNo + 1), Tick(s.generation + 1)}
    ensures Exclusive(s') && TimersBounded(s') && TimersLive(s')
  {
    var n := LaneOf(s, k).seqNo + 1;
    assert Timeout(k, n) !in s.inflight;
    assert Tick(s.generation + 1) !in s.inflight;
    forall j, m: nat | Timeout(j, m) in s'.inflight
      ensures m <= LaneOf(s', j).seqNo
    {
      assert Timeout(j, m) in s.inflight || Timeout(j, m) == Timeout(k, n);
    }
    assert Timeout(k, n) in s'.inflight && Tick(s.generation + 1) in s'.inflight;
  }

  function Promote(s: State, k: Kind): State
    requires LaneOf(s, k).queue != []
  {
    Show(Pop(s, k), k, LaneOf(s, k).queue[0])
  }

  /** Showing the head of a queue with nothing of higher priority waiting. */
  lemma PromoteKeeps(s: State, k: Kind)
    requires Core(s) && !Busy(s) && LaneOf(s, k).queue != [] && Ahead(s, k) == 0
    ensures Core(Promote(s, k)) && Busy(Promote(s, k))
  {
    hide LaneOk, Live, LiveIn, ChannelsOk, RulesBacked, Conserved;
    var l := LaneOf(s, k);
    var s' := Promote(s, k);
    BusyMeansActive(s);
    assert Ahead(Pop(s, k), k) == 0;
    assert LaneOf(s', k) == ShownLane(l);
    ShowLane(l, k);
    ReplaceLanes(s, s', k, ShownLane(l));
    ReplaceLive(s, s', k, ShownLane(l));
    Cancel(Live(s'), Live(s), LiveIn(l));
    MoveKeeps(s, s');
    ShowKeepsTimers(s, s', k);
    BusyMeansActive(s');
  }

  /** The head of queue `k` is answered without being shown. */
  lemma DepartKeeps(s: State, s': State, k: Kind, how: How, reply: Reply)
    requires Core(s) && LaneOf(s, k).queue != [] && how != Activated
    requires Replaces(s, s', k, Depart(LaneOf(s, k).(queue := LaneOf(s, k).queue[1..]), Head(LaneOf(s, k)), how, 0))
    requires SentOn(s, s', Head(LaneOf(s, k)), reply)
    requires s'.inflight == s.inflight && s'.generation == s.generation
    ensures Core(s') && (Busy(s') <==> Busy(s))
  {
    hide LaneOk, Live, LiveIn, ChannelsOk, RulesBacked, TimersBounded, TimersLive, Conserved, Exclusive;
    var l := LaneOf(s, k);
    var l' := Depart(l.(queue := l.queue[1..]), Head(l), how, 0);
    LeaveLane(l, k, how);
    ReplaceLanes(s, s', k, l');
    ReplaceLoses(s, s', k, l', Head(l));
    AnswerKeeps(s, s', Head(l), reply);
    SameScreenKeeps(s, s');
  }

  /** Nothing about the screen or its timers changed. */
  lemma SameScreenKeeps(s: State, s': State)
    requires forall j :: LaneOf(s', j).active == LaneOf(s, j).active && LaneOf(s', j).seqNo == LaneOf(s, j).seqNo
    requires s'.inflight == s.inflight && s'.generation == s.generation
    ensures Exclusive(s) ==> Exclusive(s')
    ensures TimersBounded(s) ==> TimersBounded(s')
    ensures TimersLive(s) ==> TimersLive(s')
    ensures Busy(s') <==> Busy(s)
  {
    assert s'.approval.active == LaneOf(s', Approval).active && s'.permission.active == LaneOf(s', Permission).active;
    assert s'.credential.active == LaneOf(s', Credential).active && s'.question.active == LaneOf(s', Question).active;
  }

  /** Autonomous mode drains one permission request. */
  lemma AutoAllowKeeps(s: State)
    requires Core(s) && !Busy(s) && s.permission.queue != [] && s.approval.queue == []
    ensures Core(AutoAllow(Pop(s, Permission), s.permission.queue[0]))
    ensures !Busy(AutoAllow(Pop(s, Permission), s.permission.queue[0]))
  {
    var s' := AutoAllow(Pop(s, Permission), s.permission.queue[0]);
    DepartKeeps(s, s', Permission, AutoAllowed, Permit(true));
  }

  /** The recursive drain ends with a prompt on screen or with every queue empty. */
  lemma {:induction false} NextPromptKeeps(s: State)
    requires Core(s)
    ensures Inv(NextPrompt(s))
    decreases |s.permission.queue|
  {
    hide Base, TimersLive;
    if Busy(s) {
    } else if s.approval.queue != [] {
      PromoteKeeps(s, Approval);
    } else if s.permission.queue != [] {
      if s.autonomous {
        AutoAllowKeeps(s);
        NextPromptKeeps(AutoAllow(Pop(s, Permission), s.permission.queue[0]));
      } else {
        PromoteKeeps(s, Permission);
      }
    } else if s.credential.queue != [] {
      PromoteKeeps(s, Credential);
    } else if s.question.queue != [] {
      PromoteKeeps(s, Question);
    }
  }

  // ----- Arrivals -----

  lemma FreshArrival(s: State, r: Request)
    requires Conserved(s) && Enabled(s, Ask(r))
    ensures UniqueIds(s.arrived + [r])
    ensures multiset(s.arrived + [r]) == multiset(s.arrived) + multiset{r}
    ensures forall i :: 0 <= i < |s.answers| ==> s.answers[i].req.id != r.id
  {
    UniqueAppend(s.arrived, r);
    forall i | 0 <= i < |s.answers|
      ensures s.answers[i].req.id != r.id
    {
      assert Requests(s.answers)[i] == s.answers[i].req;
      assert s.answers[i].req in multiset(Requests(s.answers));
      assert s.answers[i].req in multiset(s.arrived);
    }
  }

  lemma ArrivalKeeps(s: State, s': State, r: Request)
    requires Conserved(s) && ChannelsOk(s) && RulesBacked(s) && Enabled(s, Ask(r))
    requires s'.arrived == s.arrived + [r] && Live(s') == Live(s) + multiset{r}
    requires s'.rules == s.rules && s'.answers == s.answers && s'.inbox == s.inbox
    ensures Conserved(s') && ChannelsOk(s') && RulesBacked(s')
  {
    hide Live;
    FreshArrival(s, r);
  }

  /** A request that finds its queue full is refused at once. */
  lemma RefusalKeeps(s: State, r: Request, reply: Reply)
    requires Conserved(s) && ChannelsOk(s) && RulesBacked(s) && Enabled(s, Ask(r))
    ensures Conserved(Send(Arrive(s, r), r, reply))
    ensures ChannelsOk(Send(Arrive(s, r), r, reply)) && RulesBacked(Send(Arrive(s, r), r, reply))
  {
    hide LiveIn, UniqueIds, RuleBacked;
    var s1 := Arrive(s, r);
    var s' := Send(s1, r, reply);
    FreshArrival(s, r);
    SendKeepsChannels(s1, r, reply);
    SendKeepsRules(s1, r, reply);
    RequestsAppend(s.answers, Answered(r, reply, CanDeliver(s1, r)));
    assert Live(s') == Live(s);
    assert multiset(Requests(s'.answers)) == multiset(Requests(s.answers)) + multiset{r};
  }

  lemma OverflowKeeps(s: State, r: Request, reply: Reply)
    requires Inv(s) && Enabled(s, Ask(r)) && Busy(s)
    ensures Inv(Send(Arrive(s, r), r, reply))
  {
    hide LaneOk, Conserved, ChannelsOk, RulesBacked;
    var s' := Send(Arrive(s, r), r, reply);
    RefusalKeeps(s, r, reply);
    assert forall j :: LaneOf(s', j) == LaneOf(s, j);
    SameScreenKeeps(s, s');
  }

  function EnqueuedLane(l: Lane, r: Request): Lane {
    l.(accepted := l.accepted + [r], queue := l.queue + [r])
  }

  lemma EnqueueLane(l: Lane, r: Request)
    requires LaneOk(l, r.kind) && |l.queue| < MAX_PENDING_PROMPTS
    ensures LaneOk(EnqueuedLane(l, r), r.kind)
    ensures LiveIn(EnqueuedLane(l, r)) == LiveIn(l) + multiset{r}
  {
    assert Gone(l.left) + (l.queue + [r]) == l.accepted + [r];
  }

  lemma EnqueueCore(s: State, r: Request)
    requires Core(s) && Enabled(s, Ask(r)) && |LaneOf(s, r.kind).queue| < MAX_PENDING_PROMPTS
    ensures Core(Enqueue(Arrive(s, r), r))
    ensures Busy(Enqueue(Arrive(s, r), r)) <==> Busy(s)
  {
    hide LaneOk, Live, LiveIn, Conserved, ChannelsOk, RulesBacked, TimersBounded, TimersLive, Exclusive;
    var l := LaneOf(s, r.kind);
    var s' := Enqueue(Arrive(s, r), r);
    EnqueueLane(l, r);
    ReplaceLanes(s, s', r.kind, EnqueuedLane(l, r));
    ReplaceLive(s, s', r.kind, EnqueuedLane(l, r));
    Cancel(Live(s'), Live(s) + multiset{r}, LiveIn(l));
    ArrivalKeeps(s, s', r);
    SameScreenKeeps(s, s');
  }

  /** A request that finds the screen free is started at once: it passes through an empty queue. */
  lemma StartKeeps(s: State, r: Request)
    requires Inv(s) && Enabled(s, Ask(r)) && !Busy(s)
    ensures Inv(Start(Accept(Arrive(s, r), r), r.kind, r))
  {
    hide Core, NextPrompt, Show;
    var q := Enqueue(Arrive(s, r), r);
    assert LaneOf(s, r.kind).queue == [];
    EnqueueCore(s, r);
    assert LaneOf(s, Approval).queue == [] && LaneOf(s, Permission).queue == [] && LaneOf(s, Credential).queue == [];
    assert Pop(q, r.kind) == Accept(Arrive(s, r), r);
    if r.kind == Permission && s.autonomous {
      AutoAllowKeeps(q);
      NextPromptKeeps(AutoAllow(Pop(q, Permission), r));
    } else {
      PromoteKeeps(q, r.kind);
    }
  }

  // ----- Teardown -----

  lemma DropHeadKeeps(s: State, k: Kind)
    requires Core(s) && LaneOf(s, k).queue != []
    ensures Core(DropHead(s, k))
    ensures forall j :: LaneOf(DropHead(s, k), j).active == LaneOf(s, j).active
    ensures forall j :: j != k ==> LaneOf(DropHead(s, k), j) == LaneOf(s, j)
  {
    DepartKeeps(s, DropHead(s, k), k, Dropped, Denial(k, "stream ended"));
  }

  lemma {:induction false} DenyQueueKeeps(s: State, k: Kind)
    requires Core(s)
    ensures Core(DenyQueue(s, k)) && LaneOf(DenyQueue(s, k), k).queue == []
    ensures forall j :: LaneOf(DenyQueue(s, k), j).active == LaneOf(s, j).active
    ensures forall j :: j != k ==> LaneOf(DenyQueue(s, k), j) == LaneOf(s, j)
    decreases |LaneOf(s, k).queue|
  {
    if LaneOf(s, k).queue != [] {
      DropHeadKeeps(s, k);
      DenyQueueKeeps(DropHead(s, k), k);
    }
  }

  lemma UntouchedClose(s: State, k: Kind)
    requires LanesOk(s) && LaneOf(s, k).active.None?
    ensures Close(s, k) == s
  {
    assert LaneOk(LaneOf(s, k), k);
  }

  lemma DenyActiveKeeps(s: State, k: Kind, reason: string)
    requires Core(s)
    ensures Core(DenyActive(s, k, reason)) && LaneOf(DenyActive(s, k, reason), k).active.None?
    ensures LaneOf(DenyActive(s, k, reason), k).queue == LaneOf(s, k).queue
    ensures forall j :: j != k ==> LaneOf(DenyActive(s, k, reason), j) == LaneOf(s, j)
  {
    hide LaneOk, Exclusive, Conserved, ChannelsOk, TimersBounded, TimersLive, RulesBacked;
    if LaneOf(s, k).active.Some? {
      ResolveKeeps(s, k, Denial(k, reason));
    } else {
      UntouchedClose(s, k);
    }
  }

  /** A teardown leaves no prompt on screen and nothing waiting. */
  lemma TeardownKeeps(s: State, reason: string)
    requires Core(s)
    ensures Inv(Teardown(s, reason)) && !Busy(Teardown(s, reason)) && NoneWaiting(Teardown(s, reason))
  {
    hide Core, DenyActive, DenyQueue;
    var a := DenyActive(s, Permission, reason);
    DenyActiveKeeps(s, Permission, reason);
    var b := DenyQueue(a, Permission);
    DenyQueueKeeps(a, Permission);
    var c := DenyActive(b, Approval, reason);
    DenyActiveKeeps(b, Approval, reason);
    var d := DenyQueue(c, Approval);
    DenyQueueKeeps(c, Approval);
    var e := DenyQueue(d, Question);
    DenyQueueKeeps(d, Question);
    var f := DenyQueue(e, Credential);
    DenyQueueKeeps(e, Credential);
    var g := DenyActive(f, Question, reason);
    DenyActiveKeeps(f, Question, reason);
    var h := DenyActive(g, Credential, reason);
    DenyActiveKeeps(g, Credential, reason);
    assert h == Teardown(s, reason);
    forall k ensures LaneOf(h, k).queue == [] && LaneOf(h, k).active.None? {
      match k
      case Approval =>
      case Permission =>
      case Credential =>
      case Question =>
    }
    BusyMeansActive(h);
  }

  // ----- Steps -----

  lemma LiveFromLanes(s: State, s': State)
    requires forall j :: LaneOf(s', j) == LaneOf(s, j)
    ensures Live(s') == Live(s)
  {
    hide LiveIn;
    assert s'.approval == LaneOf(s', Approval) && s'.permission == LaneOf(s', Permission);
    assert s'.credential == LaneOf(s', Credential) && s'.question == LaneOf(s', Question);
  }

  lemma CoreResolve(s: State, k: Kind, reply: Reply)
    requires Core(s) && LaneOf(s, k).active.Some?
    ensures Core(Resolve(s, k, reply)) && !Busy(Resolve(s, k, reply))
  {
    ResolveKeeps(s, k, reply);
  }

  /** The rules a choice adds that allow anything name the very action it allows. */
  lemma ChoiceAddsExactRules(s: State, key: Key, w: Surroundings)
    requires s.permission.active.Some? && PermissionChoice(s, key, w).Decide?
    ensures var c, r := PermissionChoice(s, key, w), s.permission.active.value;
            forall rule :: rule in c.rules && rule !in s.rules && rule.allow ==>
              c.allow && !rule.ToolSession? && rule.tool == r.tool && rule.identity == r.identity
    ensures key in {Rune('p'), Rune('P')} && PermissionChoice(s, key, w).allow ==>
              Project(s.permission.active.value.tool, s.permission.active.value.identity, true)
                in PermissionChoice(s, key, w).rules
    ensures PermissionChoice(s, key, w).allow <==>
              key.Rune? && (key.c in {'y', 'Y', 's', 'S', 'a', 'A'} ||
                (key.c in {'p', 'P'} && w.configured && w.projectSaves && s.permission.active.value.identity != ""))
  {
  }

  lemma ApplyKeeps(s: State, key: Key, w: Surroundings)
    requires Core(s) && s.permission.active.Some?
    ensures Core(Apply(s, PermissionChoice(s, key, w)))
  {
    hide Exclusive, LaneOk, Conserved, ChannelsOk, TimersBounded, PermissionChoice;
    var c, r := PermissionChoice(s, key, w), s.permission.active.value;
    if c.Decide? {
      var t := Resolve(s, Permission, Permit(c.allow));
      CoreResolve(s, Permission, Permit(c.allow));
      ChoiceAddsExactRules(s, key, w);
      assert t.answers[|s.answers|] == Answered(r, Permit(c.allow), CanDeliver(s, r));
      forall rule | rule in c.rules
        ensures RuleBacked(rule, t.answers)
      {
        if rule in s.rules {
          assert RuleBacked(rule, s.answers);
          BackedStays(rule, s.answers, t.answers[|s.answers|]);
        }
      }
      NewRulesKeep(t, c.rules);
    }
  }

  lemma NewRulesKeep(s: State, rules: set<Rule>)
    requires Core(s) && forall rule :: rule in rules ==> RuleBacked(rule, s.answers)
    ensures Core(s.(rules := rules))
  {
    hide LaneOk, Live, LiveIn, UniqueIds, RuleBacked;
    var s' := s.(rules := rules);
    assert forall j :: LaneOf(s', j) == LaneOf(s, j);
    LiveFromLanes(s, s');
  }

  lemma PermissionKeyKeeps(s: State, key: Key, w: Surroundings)
    requires Inv(s) && s.permission.active.Some?
    ensures Inv(PermissionKey(s, key, w))
  {
    hide Base, TimersLive, NextPrompt, PermissionChoice;
    ApplyKeeps(s, key, w);
    NextPromptKeeps(Apply(s, PermissionChoice(s, key, w)));
  }

  lemma ResolveNextKeeps(s: State, k: Kind, reply: Reply)
    requires Core(s) && LaneOf(s, k).active.Some?
    ensures Inv(NextPrompt(Resolve(s, k, reply)))
  {
    hide Base, TimersLive;
    CoreResolve(s, k, reply);
    NextPromptKeeps(Resolve(s, k, reply));
  }

  lemma KeyKeeps(s: State, key: Key, w: Surroundings)
    requires Inv(s)
    ensures Inv(HandleKey(s, key, w))
  {
    hide Core, NoneWaiting, PermissionKey, NextPrompt;
    if s.approval.active.Some? {
      ResolveNextKeeps(s, Approval, Verdict(Approve));
      ResolveNextKeeps(s, Approval, Verdict(ApproveForSession));
      ResolveNextKeeps(s, Approval, Verdict(ApproveForN));
      ResolveNextKeeps(s, Approval, Verdict(Reject));
    } else if s.permission.active.Some? {
      PermissionKeyKeeps(s, key, w);
    } else if s.credential.active.Some? {
      ResolveNextKeeps(s, Credential, Access(true, ""));
      ResolveNextKeeps(s, Credential, Access(false, "denied by user"));
      NextPromptKeeps(s);
    } else if s.question.active.Some? {
      ResolveNextKeeps(s, Question, Text(""));
      ResolveNextKeeps(s, Question, Text(w.typed));
    }
  }

  /** Taking a timer out of flight keeps everything but the liveness of timers. */
  lemma DisarmKeeps(s: State, t: Timer)
    requires Inv(s) && t in s.inflight
    ensures Base(s.(inflight := s.inflight - multiset{t}))
    ensures forall u :: u != t ==> s.inflight[u] == (s.inflight - multiset{t})[u]
  {
    hide LaneOk, Live, Conserved, ChannelsOk, RulesBacked, TimersBounded;
    var s1 := s.(inflight := s.inflight - multiset{t});
    assert forall j :: LaneOf(s1, j) == LaneOf(s, j);
    LiveFromLanes(s, s1);
    MoveKeeps(s, s1);
    FewerTimers(s, s1, t);
  }

  lemma FewerTimers(s: State, s1: State, t: Timer)
    requires TimersBounded(s) && s1 == s.(inflight := s.inflight - multiset{t})
    ensures TimersBounded(s1)
  {
    assert forall u :: s1.inflight[u] <= s.inflight[u];
    assert forall j :: LaneOf(s1, j) == LaneOf(s, j);
  }

  lemma TimeoutKeeps(s: State, k: Kind, n: nat)
    requires Inv(s) && Timeout(k, n) in s.inflight
    ensures Inv(Step(s, Fires(Timeout(k, n))))
  {
    hide Base, NextPrompt;
    var s1 := s.(inflight := s.inflight - multiset{Timeout(k, n)});
    DisarmKeeps(s, Timeout(k, n));
    assert forall j :: LaneOf(s1, j) == LaneOf(s, j);
    if LaneOf(s1, k).active.Some? && LaneOf(s1, k).seqNo == n {
      ResolveKeeps(s1, k, Denial(k, "timed out"));
      NextPromptKeeps(Resolve(s1, k, Denial(k, "timed out")));
    } else {
      forall j | LaneOf(s1, j).active.Some?
        ensures Timeout(j, LaneOf(s1, j).seqNo) in s1.inflight && Tick(s1.generation) in s1.inflight
      {
        assert Timeout(j, LaneOf(s, j).seqNo) in s.inflight && Tick(s.generation) in s.inflight;
      }
    }
  }

  lemma BusyHasDeadline(s: State)
    requires LanesOk(s) && Busy(s)
    ensures s.permission.deadline || s.approval.deadline || s.question.deadline || s.credential.deadline
  {
    assert LaneOk(LaneOf(s, Approval), Approval) && LaneOk(LaneOf(s, Permission), Permission);
    assert LaneOk(LaneOf(s, Credential), Credential) && LaneOk(LaneOf(s, Question), Question);
  }

  lemma TickKeeps(s: State, g: nat)
    requires Inv(s) && Tick(g) in s.inflight
    ensures Inv(Step(s, Fires(Tick(g))))
  {
    hide LaneOk, Conserved, ChannelsOk, RulesBacked, TimersBounded, Exclusive;
    var s1 := s.(inflight := s.inflight - multiset{Tick(g)});
    DisarmKeeps(s, Tick(g));
    assert forall j :: LaneOf(s1, j) == LaneOf(s, j);
    if g == s.generation && Busy(s) {
      BusyHasDeadline(s);
      assert s1.inflight + multiset{Tick(g)} == s.inflight;
      assert Step(s, Fires(Tick(g))) == s;
    } else {
      BusyMeansActive(s);
      assert TimersLive(s1);
    }
  }

  lemma ReceiveKeeps(s: State, id: nat)
    requires Inv(s)
    ensures Inv(s.(inbox := s.inbox - {id}))
  {
    hide LaneOk, Live, LiveIn, UniqueIds;
    var s' := s.(inbox := s.inbox - {id});
    assert forall j :: LaneOf(s', j) == LaneOf(s, j);
    LiveFromLanes(s, s');
  }

  lemma AutonomyKeeps(s: State, on: bool)
    requires Inv(s)
    ensures Inv(s.(autonomous := on))
  {
    hide LaneOk, Live, LiveIn, UniqueIds;
    var s' := s.(autonomous := on);
    assert forall j :: LaneOf(s', j) == LaneOf(s, j);
    LiveFromLanes(s, s');
  }

  lemma AskKeeps(s: State, r: Request)
    requires Inv(s) && Enabled(s, Ask(r))
    ensures Inv(HandleAsk(s, r))
  {
    hide Core, NoneWaiting, Start;
    var s1 := Arrive(s, r);
    assert LaneOf(s1, r.kind) == LaneOf(s, r.kind);
    if !Busy(s1) {
      StartKeeps(s, r);
    } else if |LaneOf(s1, r.kind).queue| >= MAX_PENDING_PROMPTS {
      OverflowKeeps(s, r, Denial(r.kind, "credential queue full"));
    } else {
      EnqueueCore(s, r);
      assert Inv(s) && Busy(s);
    }
  }

  /** Every message the event loop delivers keeps the invariant. */
  lemma StepKeeps(s: State, e: Event)
    requires Inv(s) && Enabled(s, e)
    ensures Inv(Step(s, e))
  {
    hide Inv, HandleAsk, HandleKey, Teardown, HandleTimeout, HandleTick;
    match e
    case Ask(r) => AskKeeps(s, r);
    case Press(key, w) => KeyKeeps(s, key, w);
    case Fires(t) =>
      if t.Timeout? { TimeoutKeeps(s, t.kind, t.seqNo); } else { TickKeeps(s, t.generation); }
    case TearDown(reason) => InvTeardown(s, reason);
    case Receive(id) => ReceiveKeeps(s, id);
    case SetAutonomous(on) => AutonomyKeeps(s, on);
  }

  lemma InvTeardown(s: State, reason: string)
    requires Inv(s)
    ensures Inv(Teardown(s, reason))
  {
    TeardownKeeps(s, reason);
  }

  lemma InitialInv(autonomous: bool)
    ensures Inv(Initial(autonomous))
  {
    var s := Initial(autonomous);
    forall k ensures LaneOf(s, k) == EMPTY_LANE {}
    assert Gone([]) + [] == [];
    assert Requests(s.answers) == [];
  }
}
