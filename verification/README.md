# rho chat model: verified core

This project models, in Dafny 4.11, the parts of the rho terminal agent whose correctness depends on
more than one function: state machines and caches of the chat event loop in `cmd/`, and the algorithms
beside them that loop over text and lists. `dafny verify dfyconfig.toml` checks everything.

Most parts come in the same three layers. A pure state machine or specification function says what one
message of the event loop, or one call, does. Lemmas prove what holds after every run of it, in every
interleaving. A class or method in the shape of the program (fields overwritten step by step, loops
over mutable variables) is proved to make exactly those steps. Where the code does not have a property
that one would expect of it, a theorem says for all inputs exactly when the property holds, and a lemma
gives an input for which it does not. (The exception is the wrap of the 64-bit append counter, which
takes too many appends to write down.)

## What is modelled

**Interactive prompts** (`PromptState`, `PromptInvariants`, `PromptRuns`, `PromptAnswers`, `PromptScheduler`). Four
kinds of blocking request share one keyboard: approvals, permissions, credentials and questions. The
state holds, for each kind, the request on screen, its bounded queue and the counter that numbers its
timeouts; around it stand the one-slot reply channels, the rule stores, and the multiset of timers in
flight, which fire in any order. An event is an arrival, a key, a timer, a teardown, a read of a reply
channel by a requester (or its giving up), or a change of the autonomy tier. History fields record what
arrived, what was answered, and how each accepted request left its queue.

**Write-ahead log and saves** (`SessionLog`, `SessionStore`). One session, whose transcript only grows.
A save is captured, written and delivered in three separate events, and any number of saves may be in
flight. The 64-bit counter that decides whether the log may go wraps around in the model as it does in
the program. Messages are named by the position in the transcript that they have or will have; one that
never enters it is named by a position beyond it. `SessionLog.DurableThroughout` says for all runs
exactly when every logged message stays in the log or in the file. Two conditions together are enough:
snapshots reach the disk in the order captured, and each message is in the transcript when it is logged
(`SessionLog.OrderedRunsAreDurable`). The code enforces neither. An older snapshot written last can leave
a logged message in neither place (`SessionLog.OlderSaveLastLosesAMessage`). And the result of a tool is
logged when the tool finishes, while the transcript receives the results of the whole batch later
(`internal/engine/stream.go:946`), so that a save at quit in between writes the transcript without it and
drops the log (`SessionLog.EarlyResultIsLost`).

**Streaming render cache** (`Lines`, `StreamBoundary`, `StreamRender`, `StreamExact`, `StreamRuns`). The
markdown renderer is abstract: any function of the width and of the lines of a paragraph whose result is
not empty and does not end in a newline, where paragraphs end at blank lines outside code fences; a
line-local renderer is a special case. The cache equals the one-shot render for every text that starts with ink and has no two consecutive blank lines
outside a fence, after any earlier ticks. For all texts and all earlier ticks, a tick is exact if and
only if the pieces that it joins fit (`StreamExact.JoinFit`): no piece without ink comes before the
first ink or is left over behind the last, and at each later piece with ink the newlines put back since
the piece with ink before it are as many as the one-shot render has there. Two things break this. A
blank piece brings a separator of its own (`StreamRuns.BlankRunSplitsTheCache`), and a blank line of
white space other than spaces, tabs and carriage returns stops the count of the newlines to put back
(`StreamRuns.NoBreakSpaceShortensTheGap`).

**Scrollback cache** (`Scrollback`). Messages are rendered once and appended. A separator looks at the
role of the next message, so what was cached for the last message may hold one newline too many once
that message is continued. The extra newlines are counted exactly, and `Scrollback.ToolCallLeavesASeam`
is a run with one.

**Throttled painting** (`Throttle`). Render timers cannot be stopped, so several may be in flight.

**Arrow keys** (`ArrowBurst`). A lone arrow key is held back in case a burst from a scroll wheel follows.
A slow arrow key that comes before the timer of the one held back takes its place, so that key is lost;
`ArrowBurst.ExactlyOnce` says that nothing else is, and `ArrowBurst.SlowArrowIsLost` is such a run. That
a key takes effect means here that it reaches the rest of the event loop; what that does with it, which
for arrows of a burst may be nothing, is not modelled.

**Algorithms.** Word wrapping (`WordWrap`, `WrapExact`, `WrapGreedy`), removal of AI directives from
source files (`Directives`, `AIComments`), the recent-command list and the palette that shows it
(`Recents`), fuzzy matching (`Fuzzy`) and the scrollbar (`Scrollbar`).

A blank line that is too wide for its row makes `wrapText` leave a prefix, and no newline, in front of
the next line. `WordWrap.WrapFits` bounds the overflow for all texts by one prefix for each such line,
`WrapExact.WrapFitsExactly` says exactly which texts overflow, and `WrapExact.WideBlankOverflows` gives
one for every width and prefix. The comment on `wrapText` says that continued rows align with the text
of the first row. `WrapExact.ContinuationsLineUp` says exactly when they do, behind any earlier output,
and `WrapExact.TextLinesUp` says it for the lines of any text. They do not when a wrapped line starts
with white space, because the code drops that white space from the first row only
(`WrapExact.MisalignedLine`); nor, in general, behind an over-wide blank line, which shifts the first row
(`WrapExact.MisalignedBehindBlank`); nor behind a bullet for which the indent would leave too little
room. The model follows the code. `WrapGreedy.GreedyRows` says where rows are broken: as late as they can
be, so that no other breaking of the same words needs fewer rows.

A directive is removed by its line number. `Directives` lets the dispatch of a directive edit the files
in any way: each removal takes out its own directive if dispatches edit below the directives only, and
takes out or strips another line, and counts it, when a line was inserted above
(`Directives.InsertionAboveMisses`). These theorems hold for every comment pattern; `AIComments` is the
pattern of the program. The comment in the code says that a line is removed when it holds nothing but the
directive, and stripped otherwise. The code looks for a semicolon instead, so a directive behind code
without one takes the code with it (`AIComments.CodeIsLost`), and one that mentions a semicolon leaves an
empty line; `AIComments.CodeKeptExactly` says exactly when the code stays.

## Model

| member | source | states |
|---|---|---|
| PromptInvariants.StepKeeps | cmd/chat_update_prompts.go:137-643 | every event keeps the invariant: one prompt on screen, queues of at most 32, nothing waiting behind a free screen, requests conserved, each channel written at most once, timers matched to the screen, rules backed by answers |
| PromptInvariants.NextPromptKeeps | cmd/chat_update_prompts.go:425-450 | the recursive drain, from any state that keeps the core of the invariant, ends with a prompt on screen or every queue empty |
| PromptInvariants.TeardownKeeps | cmd/chat_update_prompts.go:484-503 | a teardown leaves nothing on screen and nothing waiting, and keeps the invariant |
| PromptInvariants.ResolveKeeps | cmd/chat_update_prompts.go:32-78 | answering the active prompt frees the screen, and the send succeeds if and only if the channel has a slot |
| PromptInvariants.ChoiceAddsExactRules | cmd/chat_update_prompts.go:215-342 | exactly which keys allow; no key stores an allow rule for anything but the very action on screen, and a project-wide allow is sent only with its rule stored |
| PromptRuns.OnePromptAndNoIdleWaiting | cmd/chat_update_prompts.go:21-30 | after every run: mutual exclusion, queue bound, and no request waits while the screen is free |
| PromptRuns.EveryRequestInOnePlace | cmd/chat_update_prompts.go:137-161 | after every run each arrived request is live or answered, exactly once, and its one answer was delivered if it has a channel |
| PromptRuns.SendOnScreenSucceeds | cmd/chat_update_prompts.go:44-78 | in every run the channel of the prompt on screen is still empty, so the expired branches of approval, credential and question prompts are unreachable |
| PromptRuns.TimersMatchTheScreen | cmd/chat_update_prompts.go:163-181 | in every run a prompt on screen has exactly one timeout of its own and exactly one current countdown tick in flight |
| PromptRuns.TimeoutHitsItsOwnPrompt | cmd/chat_update_prompts.go:202-213 | a timeout answers nothing, or refuses the very prompt whose activation armed it and then only drains |
| PromptRuns.StepFailsClosed | cmd/chat_update_prompts.go:215-342 | every answer an event sends is a refusal or is licensed by that event |
| PromptRuns.TeardownRefuses | cmd/chat_update_prompts.go:452-503 | stream end, stream error and quit send refusals only |
| PromptRuns.EveryGrantIsLicensed | cmd/chat_update_prompts.go:137-342 | over whole runs each grant was sent by the very key that gives a grant of that scope (once, for the session, for five, for the project, the credential, the text typed) while its request was on screen, or to a permission request in Autonomous mode outside a teardown or overflow |
| PromptRuns.AllowRulesAreExact | cmd/chat_update_prompts.go:91-135 | after every run each stored allow rule names an action that was answered with an allow, and none covers a whole tool |
| PromptRuns.FirstComeFirstServed | cmd/chat_update_prompts.go:344-450 | within each kind requests leave the line in order of arrival, and none starts while a queue of higher priority has anything waiting |
| PromptRuns.TimeoutMakesProgress | cmd/chat_update_prompts.go:202-213 | the timeout of the prompt on screen is in flight, and when it fires fewer requests are live |
| PromptRuns.TimeoutsAnswerEverything | cmd/chat_update_prompts.go:202-213 | from any state of any run some run of timeouts alone, at most one for each live request, answers every request that arrived |
| PromptAnswers.ApprovalKeys | cmd/chat_update_prompts.go:518-549 | with an approval on screen y approves once, s and a for the session, 5 for five, n and Escape reject, and any other key changes nothing; everything else the key answers is the Autonomous drain |
| PromptAnswers.PermissionKeys | cmd/chat_update_prompts.go:215-342 | with a permission request on screen: which answer each key sends and which one rule it stores, with every case in which it stores none or an allow turns into a refusal |
| PromptAnswers.CredentialKeys | cmd/chat_update_prompts.go:608-643 | with a credential request on screen y shares it, n and Escape refuse it, and any other key changes nothing |
| PromptAnswers.QuestionKeys | cmd/chat_update.go:465-489 | with a question on screen Enter answers the trimmed input, Escape nothing, and any other key leaves the scheduler as it is |
| PromptAnswers.Arrivals | cmd/chat_update_prompts.go:137-161 | an arriving request is queued last while fewer than 32 of its kind wait behind a prompt, refused when 32 do, shown on a free screen, and allowed unseen in Autonomous mode if it is for a permission |
| PromptAnswers.HigherPriorityFirst | cmd/chat_update_prompts.go:425-450 | whenever a request leaves its line, no request of a higher kind is left waiting, in the order approval, permission, credential, question |
| PromptScheduler.Scheduler.Update | cmd/chat_update_prompts.go:137-643 | the handlers, overwriting the fields in place, make exactly the step of the state machine and keep the invariant |
| PromptScheduler.Scheduler.HandleKeyMsg | cmd/chat_update.go:451-489 | which surface a key goes to, and what it answers |
| PromptScheduler.Scheduler.ActivateNextPrompt | cmd/chat_update_prompts.go:425-450 | the drain over the four queues in place is the recursive specification |
| PromptScheduler.Scheduler.HandlePermissionAsk | cmd/chat_update_prompts.go:137-161 | an arriving permission request is refused at once exactly when the screen is taken and 32 wait, queued when it is taken, started otherwise |
| PromptScheduler.Scheduler.HandleApprovalAsk | cmd/chat_update_prompts.go:375-391 | the same for an approval request, which is refused by a rejection |
| PromptScheduler.Scheduler.HandleCredentialAsk | cmd/chat_update_prompts.go:565-581 | the same for a credential request, which is refused with a reason |
| PromptScheduler.Scheduler.HandleAskUser | cmd/chat_update_prompts.go:344-360 | the same for a question, which is refused by an empty answer |
| PromptScheduler.Scheduler.ActivatePermissionRequest | cmd/chat_update_prompts.go:163-181 | in Autonomous mode the request is allowed unseen and the drain goes on; otherwise it is shown with a fresh timeout and a fresh countdown |
| PromptScheduler.Scheduler.ActivateApprovalRequest | cmd/chat_update_prompts.go:393-403 | an approval is shown under a new sequence number and generation, with one timer of each armed |
| PromptScheduler.Scheduler.ActivateCredentialRequest | cmd/chat_update_prompts.go:583-593 | the same for a credential |
| PromptScheduler.Scheduler.ActivateAskUserRequest | cmd/chat_update_prompts.go:362-373 | the same for a question |
| PromptScheduler.Scheduler.HandlePermissionTimeout | cmd/chat_update_prompts.go:202-213 | a timeout with a stale number changes nothing; a current one refuses the request on screen and shows the next |
| PromptScheduler.Scheduler.HandleApprovalTimeout | cmd/chat_update_prompts.go:505-516 | the same for approvals |
| PromptScheduler.Scheduler.HandleCredentialTimeout | cmd/chat_update_prompts.go:595-606 | the same for credentials |
| PromptScheduler.Scheduler.HandleAskUserTimeout | cmd/chat_update_prompts.go:551-563 | the same for questions |
| PromptScheduler.Scheduler.TrySend | cmd/chat_update_prompts.go:32-78 | a reply is delivered exactly when the channel has a free slot, and the attempt is recorded either way |
| PromptScheduler.Scheduler.HasActiveInteractivePrompt | cmd/chat_update_prompts.go:21-30 | true if and only if some kind has a request on screen |
| PromptScheduler.Scheduler.HandlePermissionResponse | cmd/chat_update_prompts.go:215-342 | each key: the answer sent, the rules stored before or after it, the cases that turn an allow into a refusal, and the next prompt |
| PromptScheduler.Scheduler.HandleApprovalResponse | cmd/chat_update_prompts.go:518-549 | each key makes the step of which `ApprovalKeys` says what it answers |
| PromptScheduler.Scheduler.HandleCredentialResponse | cmd/chat_update_prompts.go:608-643 | which keys share the credential and which refuse it; any other key only runs the drain |
| PromptScheduler.Scheduler.HandleAskUserResponse | cmd/chat_update.go:465-489 | Enter answers with the trimmed input, Escape with nothing, and other keys edit |
| PromptScheduler.Scheduler.HandlePromptCountdownTick | cmd/chat_update_prompts.go:405-415 | a stale tick dies, a current one is re-armed while a deadline stands |
| PromptScheduler.Scheduler.ClearInteractivePrompts | cmd/chat_update_prompts.go:484-503 | stream end, stream error and quit refuse what is on screen and everything that waits, kind by kind |
| PromptScheduler.Scheduler.ClearPermissionRequests | cmd/chat_update_prompts.go:187-200 | refuses the permission request on screen and every waiting one, in order |
| PromptScheduler.Scheduler.ClearApprovalRequests | cmd/chat_update_prompts.go:452-465 | the same for approvals |
| PromptScheduler.Scheduler.ClearDeferredPrompts | cmd/chat_update_prompts.go:467-482 | the same for waiting questions, then credentials |
| SessionLog.StepKeeps | cmd/chat_commands_session.go:22-67 | what every event keeps, whatever order snapshots reach the disk in and whenever messages are logged |
| SessionLog.DropMeansNoAppendSinceCapture | cmd/chat_update_system.go:18-27 | for any saves in flight a result drops the log if and only if it was written, the log is open and removable, and no append was attempted since its capture (up to the wrap of the counter) |
| SessionLog.AttemptProtectsTheLog | cmd/chat_submit.go:137-141 | in runs of fewer than 2^64 events, an append attempted on an open log, even one that failed, keeps the log from every save captured before it, however late that save is delivered; without a log nothing happens |
| SessionLog.DurableStep | cmd/chat_update_system.go:13-29 | one event keeps durability if and only if a condition holds that can be checked before it |
| SessionLog.DurableThroughout | cmd/chat_commands_session.go:48-67 | a run is durable throughout if and only if each of its steps met that condition: writes not shorter than what left the log, and the log dropped only when the file holds everything in it |
| SessionLog.OrderedRunsAreDurable | cmd/chat_commands_session.go:22-67 | with snapshots written in the order captured and messages in the transcript when they are logged every run is durable, across failed saves and appends, late results and re-created logs |
| SessionLog.LoggedMessageSurvives | cmd/chat_submit.go:137-141 | in such runs each message that was appended to the log is in the log, or stands in the saved file where it stands in the transcript |
| SessionLog.OlderSaveLastLosesAMessage | cmd/chat_commands_session.go:48-67 | without that order a logged message can be in neither place |
| SessionLog.EarlyResultIsLost | cmd/chat_update_stream.go:88-102 | with every snapshot in order, a tool result that is logged before the transcript holds it is lost by a save at quit |
| SessionStore.Store.LogMessage | cmd/chat_update_stream.go:97-101 | each attempt on an open log advances the counter, successful or not, and only a successful one adds the message; with no log nothing changes |
| SessionStore.Store.SaveSession | cmd/chat_commands_session.go:22-46 | the synchronous save writes the whole transcript and drops the log only if the write succeeded |
| SessionStore.Store.UpdateSessionSaveResult | cmd/chat_update_system.go:13-29 | a failed or outdated result leaves the log alone; a current one drops it if it can be removed |
| SessionStore.Store.SaveSessionCmd | cmd/chat_commands_session.go:48-59 | a capture holds the transcript and the counter of that moment; an empty transcript is not saved |
| SessionStore.Store.RunSave | cmd/chat_commands_session.go:60-66 | the snapshot of the capture reaches the disk, or nothing does |
| SessionStore.Store.EnsureWAL | cmd/chat_model.go:40-50 | opening the log on demand, when that works |
| SessionStore.Store.Update | cmd/chat_commands_session.go:22-67 | each method makes one step, keeps the invariant, and keeps durability if and only if the step was guarded |
| StreamBoundary.StreamStableBoundary | cmd/chat_viewport_render.go:248-270 | the scanner returns the last position behind an empty line outside every fence, the first line excepted, or where it started |
| StreamBoundary.ResumeMissesAtMostOne | cmd/chat_viewport_render.go:219-232 | a resumed scan equals the scan from scratch, except that it misses a boundary one newline past its start |
| StreamBoundary.ResumeMissesOne | cmd/chat_viewport_render.go:219-232 | a text of three newlines behind a letter on which the resumed scan does miss one |
| StreamBoundary.OpenBlockHasNoCut | cmd/chat_viewport_render.go:253-268 | three backquotes and any language tag open a block that hides its blank lines until a line of three backquotes alone: behind lines that open none, the boundary of the text with the block is that of the text before it |
| StreamBoundary.ClosedBlockIsCut | cmd/chat_viewport_render.go:253-268 | a line of three backquotes closes the block, and the boundary is then behind the empty line that follows |
| StreamBoundary.PlainCuts | cmd/chat_viewport_render.go:253-268 | in a text in which no line begins with three backquotes, exactly the places behind two newlines can be boundaries |
| StreamBoundary.ChunkInvariance | cmd/chat_viewport_render.go:219-232 | for every splitting of a stream each resumed boundary is that of a scan from scratch or one less with a newline between, and a line start outside every fence |
| StreamExact.AppendIsExact | cmd/chat_viewport_render.go:275-297 | appending a separate render to that of a settled text with ink, with the newlines put back, equals rendering both together if and only if the new part has ink and the blank lines before it hold only spaces, tabs and carriage returns |
| StreamExact.SeparatorLength | cmd/chat_viewport_render.go:284-297 | the newlines put back are never more than the last line and the blank lines behind it call for, and as many if and only if those hold only spaces, tabs and carriage returns |
| StreamExact.TickIsExact | cmd/chat_viewport_render.go:213-240 | for any cache and any text, one tick paints the one-shot render if and only if the pieces it joins fit, and the prefix it leaves has the fit of its pieces |
| StreamExact.InkedTick | cmd/chat_viewport_render.go:213-240 | with an exact cache and pieces with ink, a tick is exact if and only if the blank lines at its cuts hold only spaces, tabs and carriage returns |
| StreamRuns.ExactAfterAnyRun | cmd/chat_viewport_render.go:213-240 | after any ticks with any texts, resets and widths, a tick paints the one-shot render if and only if its pieces fit |
| StreamRuns.ExactThroughout | cmd/chat_viewport_render.go:213-240 | a whole run paints one-shot renders throughout if and only if the pieces fit at every tick |
| StreamRuns.FitIsTextual | cmd/chat_viewport_render.go:213-240 | which text is cached for which width, and how well it fits, is the same for every renderer |
| StreamRuns.CachedEqualsOneShot | cmd/chat_viewport_render.go:213-240 | after any ticks with any texts, resets and widths, a tick on a tidy text paints exactly its one-shot render |
| StreamRuns.BlankRunSplitsTheCache | cmd/chat_viewport_render.go:213-240 | for every renderer a run of blank lines across two ticks paints something else than the one-shot render |
| StreamRuns.NoBreakSpaceShortensTheGap | cmd/chat_viewport_render.go:275-297 | for every renderer a no-break space on a blank line makes the first tick lose a newline |
| StreamRuns.BlankPieceCanFit | cmd/chat_viewport_render.go:275-297 | a blank piece and an odd blank line can make up for each other, so the condition must count newlines and cannot judge the pieces one by one |
| StreamRender.StreamTail.RenderStreamTail | cmd/chat_viewport_render.go:213-240 | the in-place cache makes exactly the specified tick |
| StreamRender.LeadingBreaks | cmd/chat_viewport_render.go:214-217 | newlines and carriage returns in front of the text, and nothing else, make no difference to a tick; a text of nothing else shows the spinner and leaves the cache alone |
| StreamRender.StreamTail.Invalidate | cmd/chat_viewport_render.go:14-22 | an invalidated cache is the one that every run of ticks starts from |
| StreamRender.StreamTail.JoinRendered | cmd/chat_viewport_render.go:275-282 | the separator put back between two renders |
| StreamRender.StreamTail.CountTrailingNewlines | cmd/chat_viewport_render.go:284-297 | the backward loop counts the newlines of the trailing white space |
| Scrollback.SeamsCostOneNewlineEach | cmd/chat_viewport_render.go:145-175 | the cache is longer than the full render by one newline for each tight seam, and equals it if and only if there is none |
| Scrollback.RenderShowsAll | cmd/chat_viewport_render.go:32-175 | the full render is, in order, the body of every message but the replies of white space, with a newline before a user message that is not the first, and behind each body no newline, one or two as its role and the next one say |
| Scrollback.CacheShowsAll | cmd/chat_viewport_render.go:32-175 | so is the cache, with two newlines in place of one at each tight seam |
| Scrollback.AppendMakesSeam | cmd/chat_viewport_render.go:145-175 | appending leaves what was cached as it was, which is the new render with the old last message as a seam |
| Scrollback.AppendOnlyRun | cmd/chat_viewport_render.go:619-651 | after any run of appends the cache is the full render with one extra newline at each seam whose roles are user and tool call, tool call and result, or result and tool call |
| Scrollback.ToolCallLeavesASeam | cmd/chat_viewport_render.go:145-152 | for every renderer a tool call that arrives after the command was shown leaves one newline too many |
| Scrollback.Cache.Assemble | cmd/chat_viewport_render.go:619-651 | which calls rebuild, and that a rebuild restores the full render of the current messages; any other call keeps what is cached, renders what was appended behind it, and adds one seam; in every case each message but the replies of white space is on show, in order |
| Scrollback.Cache.Invalidate | cmd/chat_viewport_render.go:14-19 | an invalidated cache holds nothing, so the next call rebuilds it |
| Scrollback.Cache.RenderMessagesRange | cmd/chat_viewport_render.go:199-205 | a range extends the render of what comes before it to the render of what it ends at |
| WordWrap.WrapLosesNothing | cmd/chat_view.go:80-212 | for every text, width, prefix and rune widths, wrapping changes white space only |
| WordWrap.WrapFits | cmd/chat_view.go:80-212 | for every width given, which counts as 80 below 20: the first row fits what the prefix leaves and every other row the width, or is one word after its indent, plus at most one prefix for each over-wide blank line before |
| Lines.JoinRows | cmd/chat_view.go:104 | splitting a text into rows loses nothing: the rows joined with newlines are the text |
| WrapExact.WrapFitsExactly | cmd/chat_view.go:80-212 | all rows of a text fit if and only if each line begins on a row that fits behind what a run of over-wide blank lines left there, on the first row or a later one, and so does what such a run leaves at the end |
| WrapExact.WrapLineRows | cmd/chat_view.go:104-206 | the rows of any line behind any earlier output: its own rows, the first of them behind the prefix and whatever the open row held; an over-wide blank line leaves the prefix only |
| WrapExact.PlainStartFits | cmd/chat_view.go:80-212 | a line that does not follow an over-wide blank line always begins on a row that fits |
| WrapExact.NoWideBlankFits | cmd/chat_view.go:80-212 | if every blank line but the last line fits the width given, or without a prefix, nothing overflows that width |
| WrapExact.WideBlankOverflows | cmd/chat_view.go:144-206 | for every width and every prefix but zero there is a text with an over-wide blank line whose rows overflow |
| WrapExact.ContinuationsLineUp | cmd/chat_view.go:80-140 | a wrapped line behind any earlier output: the column of the text of its first row, counting the prefix that the caller printed before the very first row and all that the row held; the column of each row that continues it; and it lines up behind the bullet of the first row if and only if the leading white space is as wide as the first row is shifted (or, when the indent would leave less than ten columns, there is neither a shift nor a bullet) |
| WrapExact.TextLinesUp | cmd/chat_view.go:80-212 | the same for every wrapped line of any text, at its rows in the output, with the shift that the over-wide blank lines before it cause |
| WrapExact.LeadingSpaceMisaligns | cmd/chat_view.go:131-206 | any two words that need two rows, behind two spaces, come out two columns apart |
| WrapExact.WideBlankMisaligns | cmd/chat_view.go:104-206 | any two words that need two rows, behind an over-wide blank first line, come out one prefix apart |
| WrapExact.MisalignedLine | cmd/chat_view.go:131-206 | one such text and its two rows |
| WrapExact.MisalignedBehindBlank | cmd/chat_view.go:104-206 | one text with an over-wide blank first line and its two rows |
| WrapGreedy.GreedyPiece | cmd/chat_view.go:131-206 | a line whose words each fit a row, behind any earlier output, is broken as late as possible: its rows divide its words, each fits, and none has room for the first word of the next |
| WrapGreedy.GreedyRows | cmd/chat_view.go:80-206 | the same for a text of that line, with the width and prefix given by the caller; and no other division of its words into rows that fit has fewer rows |
| WrapGreedy.FullIsFewest | cmd/chat_view.go:154-205 | rows without room for the next word are the fewest possible |
| WrapGreedy.FittingLinesStay | cmd/chat_view.go:104-150 | a text whose lines fit comes out as it was, each line but the first behind the prefix, with only empty rows at the end dropped |
| WrapGreedy.LongWordRows | cmd/chat_view.go:157-188 | a word wider than a row is broken into pieces that make up the word, each fitting or of one rune, none with room for the first rune of the next |
| WrapGreedy.BulletsExactly | cmd/chat_view.go:114-133 | the bullets and numbers past which continued rows are indented, and how far |
| WordWrap.WrapText | cmd/chat_view.go:80-212 | the three nested loops over lines, words and pieces of a word write what the specification says; the rows above say of it what fits the width given, where rows are broken and where they line up |
| WordWrap.PlaceWord | cmd/chat_view.go:157-205 | a word stays on the row, moves to the next one, or is broken into pieces that fit, each of at least one rune |
| Directives.BottomUpIsAllAtOnce | cmd/ai_comments.go:135-168 | for dispatches that leave the files alone, and every outcome of each dispatch and write, bottom-up removal equals removing the successful directives at once, and counts them |
| Directives.OnlyDirectivesGo | cmd/ai_comments.go:135-214 | for dispatches that leave the files alone: each file is shorter by exactly the whole-line directives that succeeded (one empty line standing for none), every other line is as far above its old place as lines went before it, stripped if it held a directive that succeeded and unchanged otherwise |
| Directives.StrippedInPlace | cmd/ai_comments.go:205-208 | with no whole-line directive among them every line keeps its number, stripped or unchanged |
| Directives.EditsBelowAreSafe | cmd/ai_comments.go:135-168 | for dispatches that edit the files below the directives only, each removal takes out its own directive, none is out of range, and the count is the number of successes |
| Directives.RemovalTakesOut | cmd/ai_comments.go:190-214 | a removal lowers the number of lines with the text that the scan found by one if and only if that line is still where it was found, and leaves it otherwise |
| Directives.InsertionAboveMisses | cmd/ai_comments.go:135-168 | a dispatch that inserts a line above makes the removal take out that line and count it |
| Directives.TopDownLosesOne | cmd/ai_comments.go:140-148 | in the opposite order a removal pushes the next directive out of range |
| Directives.FoundWhat | cmd/ai_comments.go:37-84 | the scan finds each line that holds a directive once |
| Directives.SortedBottomUp | cmd/ai_comments.go:143-148 | the sort by path and descending line visits each file from the bottom up and loses nothing |
| Directives.Workspace.ProcessAIDirectives | cmd/ai_comments.go:135-168 | with dispatches that edit the files in any way the loop comes to the specified files and count; with dispatches that leave them alone these are the originals with precisely the successful directives removed, every other line kept in order, and their number; with edits below the directives each removal takes out its own |
| Directives.Workspace.RemoveAIComment | cmd/ai_comments.go:190-214 | one removal: the line is taken out if the program takes it for a directive only, and stripped otherwise, every other line stays, and the cases that fail change nothing |
| Directives.Workspace.ScanForAIComments | cmd/ai_comments.go:37-84 | the nested loops find what the specification finds |
| AIComments.WrittenMatches | cmd/ai_comments.go:25-27 | any code, a comment marker, spaces, the token and at least one more character make a line with a directive |
| AIComments.MatchIsWritten | cmd/ai_comments.go:25-27 | every line with a directive is such a line |
| AIComments.NoDirectiveLeft | cmd/ai_comments.go:205-208 | a stripped line holds no directive, so it is not found again |
| AIComments.WholeLineExactly | cmd/ai_comments.go:200-204 | the whole line of a directive is removed if and only if the directive has an instruction and there is no semicolon on the line, whatever code stands in front |
| AIComments.CodeKeptExactly | cmd/ai_comments.go:200-208 | the removal of a directive keeps the code in front of it if and only if there is none, or the line has a semicolon, or the directive has no instruction |
| AIComments.CodeIsLost | cmd/ai_comments.go:200-204 | for every code and comment without a semicolon the code in front of a directive goes with it |
| AIComments.SemicolonKeepsCode | cmd/ai_comments.go:205-208 | with a semicolon on the line the code stays, without the blanks behind it |
| AIComments.PythonLineIsLost | cmd/ai_comments.go:200-204 | the program at work on a file of one such line, of which nothing is left |
| Recents.RecencyMeaning | cmd/command_history.go:11-14 | the recency list has each used command once, ordered by last use |
| Recents.RunIsRecency | cmd/command_history.go:51-92 | after any uses, failed writes included, the file holds the first twelve recorded commands by last use, without duplicates |
| Recents.EmptyQueryListsAll | cmd/command_palette.go:236-264 | the empty query lists recents first and every name exactly once |
| Recents.PaletteAfterAnyRun | cmd/command_palette.go:236-264 | the same after any run of uses |
| Recents.CommandPalette.RecordCommandUsed | cmd/command_history.go:63-92 | what is not a slash command changes nothing; anything else moves to the front, and only a successful write shows it |
| Recents.RecordedEntry | cmd/command_history.go:69-92 | the entry in front is that of the command, with the time of this use and one use more than before |
| Recents.CommandPalette.SaveCommandHistory | cmd/command_history.go:51-58 | a successful write stores the first twelve entries; a failed one leaves the file as it was |
| Recents.CommandPalette.RecentCommands | cmd/command_history.go:97-108 | the commands in the file, each at its first place only |
| Recents.CommandPalette.FilterEmpty | cmd/command_palette.go:236-264 | the palette for the empty query is the recent commands and then the entries that are not among them |
| Fuzzy.GreedyIsComplete | cmd/autocomplete.go:224-234 | the greedy scan matches if and only if the input is a subsequence, and places each rune no later than any other placing |
| Fuzzy.ScoreBounds | cmd/autocomplete.go:275-290 | a match scores above 3/16 and at most 1 |
| Fuzzy.PrefixRanksFirst | cmd/autocomplete.go:233-290 | a candidate that starts with the input scores no less than any other match that is not shorter, and more than one that does not start with it unless that one has full marks for its points |
| Fuzzy.RunLengthMeans | cmd/autocomplete.go:250-255 | the count of consecutive matches is the number of places side by side that end here, the start of the text counting as one |
| Fuzzy.SampleScores | cmd/autocomplete.go:233-290 | three worked scores: a prefix of two runes, a rune at the start of a word, and one inside a word |
| Fuzzy.FuzzyMatch | cmd/autocomplete.go:207-291 | the two loops decide the subsequence relation and compute the specified score within its bounds |
| Throttle.NothingStranded | cmd/chat_model.go:506-528 | in every run unpainted text has a repaint due or the latest timer in flight, and with no timer and no repaint due the screen is up to date |
| Throttle.AnyTickCatchesUp | cmd/chat_update_stream.go:38-47 | whichever timer fires first brings the screen up to date |
| Throttle.TextIsTheChunks | cmd/chat_update_stream.go:17-36 | in every run the text is that of the chunks since the last stream ended, in order, and so is what an up-to-date screen shows |
| Throttle.ChunkPaints | cmd/chat_model.go:506-520 | a chunk is painted at once exactly when 50 milliseconds have passed since the last paint or a repaint was due anyway; otherwise it is marked for a timer |
| Throttle.Painter.MarkPartialDirty | cmd/chat_model.go:506-520 | text is painted at once when the interval has passed; otherwise it is marked, and a timer is armed unless one is due |
| Throttle.Painter.HandleStreamRenderTick | cmd/chat_update_stream.go:38-47 | a timer, even an old one, clears the pending mark and paints what is marked |
| Throttle.Painter.FlushPartialDirty | cmd/chat_model.go:522-528 | marked text becomes due for a repaint and no timer is awaited |
| Throttle.Painter.HandleStreamChunk | cmd/chat_update_stream.go:17-36 | the chunk joins the text, and whatever is due is painted |
| Throttle.Painter.HandleStreamDone | cmd/chat_update_stream.go:133-158 | the end of a stream flushes what is marked, empties the text, and leaves a repaint due |
| ArrowBurst.InOrderAtMostOnce | cmd/chat_update.go:175-231 | in every run, whatever timer commands are dropped, each key reaches the rest of the event loop at most once and in order, and a key held back is an arrow whose timer is in flight |
| ArrowBurst.ExactlyOnce | cmd/chat_update.go:205-213 | no key is lost in a run if and only if no slow arrow key arrives while another is held back |
| ArrowBurst.SlowArrowIsLost | cmd/chat_update.go:205-213 | a run of two slow arrow keys of which the first is lost |
| ArrowBurst.BurstEnds | cmd/chat_update_system.go:123-131 | if every timer command reaches the runtime, the burst flag is set only while the timer that clears it is in flight |
| ArrowBurst.FastAndSlow | cmd/chat_update.go:177-213 | an arrow key within 30 milliseconds of the one before sets the burst flag and takes effect behind the key held back; any other arrow key clears it and is held back with its timer in flight |
| ArrowBurst.LatestTimerOnly | cmd/chat_update_system.go:123-145 | the timer of the latest arrow key ends the burst and releases the key held back; any other timer changes nothing |
| ArrowBurst.ArrowKeys.UpdateKey | cmd/chat_update.go:175-231 | a key first releases the one held back; a slow arrow is held back itself, in place of any other |
| ArrowBurst.ArrowKeys.UpdateProcessArrowTick | cmd/chat_update_system.go:123-145 | only the timer of the latest arrow key ends the burst and releases the key held back |
| Scrollbar.ThumbInTrack | cmd/chat_scrollbar.go:84-118 | the thumb is not empty, lies inside the track, is at the top at offset zero and touches the last row at the maximum offset |
| Scrollbar.ThumbMonotone | cmd/chat_scrollbar.go:96-117 | scrolling down never moves the thumb up |
| Scrollbar.ThumbIsProportional | cmd/chat_scrollbar.go:84-118 | the thumb takes the share of the track that the viewport takes of the content, and lies as far down as the offset, rounded down to rows |
| Scrollbar.RenderScrollbarHeight | cmd/chat_scrollbar.go:72-132 | exactly the given number of rows, the thumb one contiguous block, caps and track elsewhere; nothing without overflow |
| Scrollbar.ViewportWidth | cmd/chat_scrollbar.go:52-60 | viewport and scrollbar fill the width whenever there are two columns or more |

## Left out

- Deadlines: they are set or unset; clock times, the countdown display and the durations of timers are not modelled.
- Prompt generation counter: does not wrap at 64 bits, because a run would need that many prompts.
- Requesters: their five-minute select appears as an event that empties a channel at any time.
- Canonical identity of permission rules and the four kinds of prompt identifiers: an identity is a trimmed string.
- Overlays that take keys before a prompt does. That some of them drop the timer command of a burst of arrow keys is modelled.
- Lane records: the active request, queue, counter and deadline of a kind are separate fields of the chat model, grouped here in one record.
- Display messages that the prompt handlers append to the transcript.
- Session changes (resume, new, rewind, drop, rename) and compaction: one session with a growing transcript is modelled.
- Batched log appends: an append reaches the log or fails; the window before a batch is flushed is not modelled.
- Sanitizers of messages, and JSON and file formats.
- Markdown rendering: abstract, see above. Renderers that carry state from one paragraph to the next are not covered.
- Message bodies in the scrollback: any function of the message, its index and the width; the countdown inside a prompt box depends on the clock and is not modelled. The welcome screen and the streaming tail are put around the cache and not part of it.
- Painting while the configuration panel is open: the viewport then shows the panel.
- Width of text: the sum of the widths of its runes; grapheme clusters are not modelled. Colour codes are left out.
- WordWrap.WrapFits: needs a prefix of at most the width less ten, spaces of width one, and runes of width one or two in words; zero-width runes in words are covered by `WrapLosesNothing` and `ContinuationsLineUp` only.
- WrapGreedy.GreedyRows: is about a text of one line whose words have a width and fit a row, behind a prefix of at most the width less ten; `GreedyPiece` is about such a line anywhere in a text, and a line that mixes words that fit with words that are broken is covered by `PlaceWord` only.
- AIComments.WholeLineExactly: lines are sequences of characters; bytes that are not UTF-8 are not modelled.
- The body of `wrapText` is three methods here, one for each loop nest.
- The mode and the instruction of a directive and the prompt sent for it: a dispatch is any function of the directive and the files.
- Reading the history file when it is damaged, and the ranking of a non-empty query by other scores.
- Lower-casing is any map of runes to runes.
- Floating-point rounding in the score: it is computed over the reals.
- Slash commands, completion scripts, git, voice, clipboard, network and shell calls.
