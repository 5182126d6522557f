# Verified model of aqua-matrix

A Dafny 4.11 model of the stateful core of the aqua-matrix agent, with proofs about
every run of it. Asynchronous code is modelled step by step: one step per request, and
the other side's answer (and how long it took) comes from an arbitrary oracle, so a
statement about all oracles is a statement about every behaviour of the homeserver, the
notifier, the disk or the identity provider.

`dafny verify dfyconfig.toml` checks the whole project.

| file | component |
|---|---|
| `RtcSchedule.dfy`, `RtcKeeper.dfy` | the refresh and heartbeat schedule of an RTC membership, and the keeper that drives a homeserver with it; classes proved equal to functions on values |
| `RtcEffects.dfy`, `RtcChainSafety.dfy` | which `created_ts` is ever re-sent, and retries of failed rejoins |
| `RtcPatience.dfy` | how long failed requests are left alone, over every run |
| `RtcEnding.dfy` | whose delayed leave each request is about, and what a hold asks for when it ends |
| `RtcDrain.dfy` | when the drain loop of a tick ends, and when it never does |
| `RtcTiming.dfy` | bounds under which the dead-man switch never fires and the membership never lapses |
| `RtcInPlace.dfy` | rejoining in place: order of the published `created_ts` and expiries |
| `RtcTakeover.dfy` | all interleavings of holds, keepers, handles and delayed leaves on one membership key |
| `RtcHandOver.dfy` | over those interleavings: who takes the membership away and who does not |
| `RtcOneKeeper.dfy` | the keeper and the holds of that machine refine the keeper that drives the homeserver |
| `Text.dfy`, `Splitter.dfy` | bytes, whitespace, code fences, and the splitter of long replies |
| `OpenGate.dfy`, `ReplyStream.dfy` | the back-off of message opens, and the reply stream with rollover and finish |
| `TokenRotation.dfy` | clients that rotate session tokens through one store under its lock |
| `ActivityCount.dfy`, `ActivityWatch.dfy`, `ActivityAlerts.dfy` | incremental reading of the activity log, milestone alerts, and which of them are repeated |
| `WorkJournal.dfy` | the durable work journal across crashes and failed writes |
| `PendingQuestions.dfy` | the pending-question router under overlapping asks, messages and timeouts |
| `Base64.dfy` | the base64 codec of the call keys |
| `DmSelection.dfy` | classification and choice of direct-message rooms |
| `Basics.dfy` | the few definitions that several of them share |

Code that updates fields in place is a class whose methods are proved against a function
on the old state (`View() == old(View()).Step(...)`); the theorems are about the runs of
those functions. Durations are whole milliseconds. Text is a sequence of characters with
UTF-8 byte lengths: cuts are character positions, budgets are bytes.

## Hypotheses

- The chain-safety theorems speak of what the keeper has observed. `RtcTiming.UnseenLeave`
  is a run in which a delayed leave comes due between a failed restart and a refresh, and
  the refresh re-sends the removed chain's `created_ts`.
- Timing bounds: each action lasts at most `step` ms, and so do the hold's own requests
  after its join; the homeserver never asks for a wait longer than `wait` (0 when it sends
  no `retry_after`); at most `failures` failures occur in a row; an action starts no later
  than it is due.
- Take-over (`RtcTakeover.TakeoverIsSafe`): no event of the run loses track of a leave or of
  a request (`Loses`): the predecessor was not aborted, the cancel of its stale delayed leave
  took effect, no schedule request took effect without its id arriving, no hold was dropped
  while it retired its predecessor, no "send now" was refused while the leave stayed
  scheduled, and no request that was cut off or answered with an error takes effect later.
  `RtcTakeover.JoinIsSafeIffClean` needs none of these and says exactly when a join is safe.
  Throughout, the homeserver answers a restart with NotFound only when the delayed leave is
  not scheduled any more.
- Streaming: `acked` says that every freezing edit was acknowledged; `roll_over` itself goes
  on without that.
- Token rotation: `NeverStrands` says that each exchanged grant's reply arrives and is saved,
  `NeverLoses` that no new session is thrown away at all. A login whose reply is lost counts
  as issuing no token, so "newest" means newest among exchanges and answered logins.
- The journal's rewrites are atomic; where a statement needs them to succeed it says so
  (`AllWritten`).

## Where the code does not do what its documentation says

- `supersede` (rtc_member.rs:972-977) is documented to leave nothing of the old hold on the
  homeserver. `RtcTakeover.RefusedLeaveRemovesTheNextHold`: the old handle leaves, the "send
  now" is refused, the membership is cleared, and the delayed leave, whose id was given up
  before the request, later removes the next hold.
- A tick "runs every due action, then waits" (rtc_member.rs:781-786). While every request
  fails after the same time, that holds exactly when this time is shorter than the retry
  interval or no second deadline passes meanwhile (`RtcDrain.DrainEndsIff`); otherwise the
  loop never ends and no rejoin is served. `RtcDrain.StalledHoldNeverDrains` is a hold that
  gets there with the default timing.
- "Exactly one question per target" with "no correlation ambiguity" (pending.rs:22-25) needs
  the run lock of the callers that pending.rs:37-47 asks for: `clear` removes whatever entry
  the user has. `PendingQuestions.OlderAskClearsNewer`: an older ask that could not send its
  question clears the newer one's entry. Replies can be consumed and lost
  (`PendingQuestions.RepliesAreLost`), exactly by an ask that times out or fails to send its
  question (`PendingQuestions.ConsumedIsAnswerIff`).
- "A restart never re-counts or re-alerts" (aqua-activity-watch/src/main.rs:13-14): it never
  re-counts, but `ActivityAlerts.UnsavedAlertIsRepeated` re-alerts what was not saved. An
  alert is repeated exactly when one was sent after the last successful save, a restart
  followed, and a later poll sent an alert again (`ActivityAlerts.RepeatedIffLost`).
- "A fresh volume (inode change / truncation) resets the count" (main.rs:14-16): a truncation
  does exactly when a poll finds the file smaller than what was read of it
  (`ActivityWatch.ResetForgets`, `ActivityWatch.GrowthIsReadOn`); a file that has grown past
  that again is read on, as in `ActivityWatch.RegrownFileIsMisread`.
- `load_or_empty` is documented to seed the file (durable.rs:71-72); it writes nothing.
- `finish` posts "(no output)" below an already complete reply when only whitespace is left in
  the buffer: `ReplyStream.Stream.Finish` proves that the room then does not hold exactly the
  reply, and that otherwise it does. `ReplyStream.SpaceSpoilsReply` is a run in which every
  request is granted and a rollover leaves a blank buffer: 6,000 letters, then a space.

## Model

| member | source | states |
|---|---|---|
| RtcSchedule.Validate | crates/aqua-matrix-agent/src/rtc_member.rs:147-180 | a timing is accepted exactly when every interval is positive, refreshes come before the expiry and restarts before the delayed leave; and which complaint is made |
| RtcSchedule.DueIffAwake | crates/aqua-matrix-agent/src/rtc_member.rs:229-252 | an action is due exactly from `next_wake` on, so a sleep until then is exact |
| RtcSchedule.Schedule.NextWake | crates/aqua-matrix-agent/src/rtc_member.rs:229-236 | the earliest instant at which anything is due |
| RtcSchedule.Schedule.Joined | crates/aqua-matrix-agent/src/rtc_member.rs:218-227 | a new schedule refreshes after one interval and arms the switch at once |
| RtcSchedule.Schedule.Refreshed | crates/aqua-matrix-agent/src/rtc_member.rs:264-269 | validity counts from the join, the next refresh from now |
| RtcSchedule.Schedule.RefreshFailed | crates/aqua-matrix-agent/src/rtc_member.rs:271-274 | only the next refresh moves, by the longer of both waits |
| RtcSchedule.Schedule.Rejoined | crates/aqua-matrix-agent/src/rtc_member.rs:276-280 | a new chain starts its validity now and keeps the switch |
| RtcSchedule.Schedule.LeaveArmed | crates/aqua-matrix-agent/src/rtc_member.rs:282-286 | the next restart is one interval away |
| RtcSchedule.Schedule.LeaveArmFailed | crates/aqua-matrix-agent/src/rtc_member.rs:288-292 | the switch stays unarmed until the back-off ends |
| RtcSchedule.Schedule.LeaveRestartFailed | crates/aqua-matrix-agent/src/rtc_member.rs:294-303 | a failed restart is retried after the shorter of the retry and restart intervals, or the server's wait |
| RtcSchedule.Schedule.LeaveLost | crates/aqua-matrix-agent/src/rtc_member.rs:305-307 | a lost leave is re-armed at once |
| RtcSchedule.Schedule.LeaveDisabled | crates/aqua-matrix-agent/src/rtc_member.rs:309-311 | an unsupported switch is never due again |
| RtcKeeper.Keeper.StartShared | crates/aqua-matrix-agent/src/rtc_member.rs:535-563 | no keeper without a valid timing and an acknowledged join; otherwise anchored and armed as `Start` says |
| RtcKeeper.Keeper.AnchorCreatedTs | crates/aqua-matrix-agent/src/rtc_member.rs:569-579 | asks for the timestamp of the current chain and keeps what the server names |
| RtcKeeper.Keeper.ArmLeave | crates/aqua-matrix-agent/src/rtc_member.rs:583-604 | schedules the delayed leave; the id is held exactly after success |
| RtcKeeper.Keeper.Rejoin | crates/aqua-matrix-agent/src/rtc_member.rs:608-627 | forgets the old chain before publishing a new one, whatever the answer |
| RtcKeeper.Keeper.Refresh | crates/aqua-matrix-agent/src/rtc_member.rs:630-668 | re-sends the chain only if it is known, not lapsed and anchored; otherwise starts a new one |
| RtcKeeper.Keeper.RejoinInPlace | crates/aqua-matrix-agent/src/rtc_member.rs:677-731 | publishes a later `created_ts`; a failure leaves schedule and chain as they were |
| RtcKeeper.Keeper.RestartLeave | crates/aqua-matrix-agent/src/rtc_member.rs:733-768 | restarts the delayed leave; when it is gone, re-arms first and rejoins unless the membership is confirmed live |
| RtcKeeper.Keeper.Step | crates/aqua-matrix-agent/src/rtc_member.rs:771-779 | performs the one action that is due and says whether there was one |
| RtcKeeper.Keeper.Leave | crates/aqua-matrix-agent/src/rtc_member.rs:815-838 | sends the delayed leave now or clears the membership, and gives the id up |
| RtcKeeper.Keeper.HandOver | crates/aqua-matrix-agent/src/rtc_member.rs:842-862 | cancels the delayed leave; the id is kept exactly when that failed |
| RtcEffects.RecoveryAsks | crates/aqua-matrix-agent/src/rtc_member.rs:733-768 | request by request: after a restart that found the leave gone, the membership is asked for, a leave is scheduled, and a new chain is published unless the answer was that the membership is live |
| RtcChainSafety.SwitchArmedIffIdHeld | crates/aqua-matrix-agent/src/rtc_member.rs:583-668 | in every reachable state the leave is armed exactly when a delay id is held |
| RtcChainSafety.EndedChainIsNeverResent | crates/aqua-matrix-agent/src/rtc_member.rs:608-768 | after the leave was seen gone without a confirmed membership, or a lapse was seen, every later refresh continues a chain started after that |
| RtcChainSafety.RefreshCarriesItsChainsTs | crates/aqua-matrix-agent/src/rtc_member.rs:630-731 | every refresh carries the `created_ts` its own chain was published with, or that the server named for it |
| RtcChainSafety.FailedRejoinsAreRetried | crates/aqua-matrix-agent/src/rtc_member.rs:608-668 | until a publication succeeds, each due refresh publishes a new chain, and a failed one is due again after the back-off |
| RtcPatience.FailedArmWaits | crates/aqua-matrix-agent/src/rtc_member.rs:583-604 | a failed arming is due again after the longer of the retry interval and the wait the server asked for, and nothing else changes |
| RtcPatience.FailedRestartWaits | crates/aqua-matrix-agent/src/rtc_member.rs:294-303 | a failed restart is due again after the shorter of two intervals or the server's wait, whichever is longer, and the leave is still held |
| RtcPatience.FailedRefreshWaits | crates/aqua-matrix-agent/src/rtc_member.rs:271-274 | the same for a refresh whose publication failed, whichever way it took |
| RtcPatience.ServersWaitIsObserved | crates/aqua-matrix-agent/src/rtc_member.rs:318-324 | over every run: after a request about the switch or a refresh was put off, no further one is sent before the server's wait is over |
| RtcPatience.RestartsKeepTheirDistance | crates/aqua-matrix-agent/src/rtc_member.rs:733-768 | in particular, restarts are at least as far apart as the server asked |
| RtcEnding.HandOverCancels | crates/aqua-matrix-agent/src/rtc_member.rs:842-862 | the only request of a hand-over cancels the delayed leave that is held; its id is kept exactly if that answered neither success nor NotFound; schedule and chain stay |
| RtcEnding.LeaveTakesAway | crates/aqua-matrix-agent/src/rtc_member.rs:815-838 | a leave sends the delayed leave that is held, and clears the membership exactly if none is held or that failed |
| RtcEnding.OnlyLeavingTakesAway | crates/aqua-matrix-agent/src/rtc_member.rs:863-910 | over every run: a request that takes the membership away is sent exactly by a hold that leaves, never by one that goes on or hands over |
| RtcEnding.OneLeaveAtATime | crates/aqua-matrix-agent/src/rtc_member.rs:583-862 | over every run and either end: each restart, cancel and "send now" is about the leave scheduled last and not found gone since, and a leave is scheduled only when there is none |
| RtcDrain.DrainTakesTwoSteps | crates/aqua-matrix-agent/src/rtc_member.rs:771-795 | when two steps take less than the shortest interval, whatever their answers, nothing is due after them |
| RtcDrain.StepDefers | crates/aqua-matrix-agent/src/rtc_member.rs:240-311 | a step pushes the deadline it served at least the shortest interval ahead |
| RtcDrain.Drain | crates/aqua-matrix-agent/src/rtc_member.rs:786-795 | the drain loop ends after at most two steps with the next wake-up ahead |
| RtcDrain.ShortFailuresDrain | crates/aqua-matrix-agent/src/rtc_member.rs:786-795 | failing requests shorter than the retry interval: at most three steps from any state |
| RtcDrain.DrainNeverEndsOnAHangingServer | crates/aqua-matrix-agent/src/rtc_member.rs:786-795 | failing requests no shorter than that, of whatever lengths, and both deadlines behind: an action is always due |
| RtcDrain.DrainEndsIff | crates/aqua-matrix-agent/src/rtc_member.rs:786-795 | while every request takes the same time and fails, the loop ends exactly when that time is below the retry interval or no second deadline passes during the first action; then within three steps |
| RtcDrain.BothPassedEndsIff | crates/aqua-matrix-agent/src/rtc_member.rs:786-795 | with both deadlines passed it ends exactly when a failed request is shorter than the retry interval |
| RtcDrain.StalledHoldNeverDrains | crates/aqua-matrix-agent/src/rtc_member.rs:786-795 | a reachable hold, with the default timing, whose drain loop never ends |
| RtcTiming.SwitchNeverFires | crates/aqua-matrix-agent/src/rtc_member.rs:294-324 | under the bound on `leave_delay`, every restart, also one told that the leave is gone, is answered before the leave comes due, and the leave held stays ahead of the clock |
| RtcTiming.MembershipNeverLapses | crates/aqua-matrix-agent/src/rtc_member.rs:630-668 | under the bound on `expiry`, the lapse branch is never taken and a held chain is still valid |
| RtcTiming.DefaultTimingSurvives | crates/aqua-matrix-agent/src/rtc_member.rs:134-145 | with the default timing and steps under seven seconds, single failed restarts and 347 failed refreshes in a row do no harm |
| RtcTiming.UnseenLeave | crates/aqua-matrix-agent/src/rtc_member.rs:733-768 | beyond the bound: a run whose refresh re-sends a chain that the delayed leave has already removed, unseen |
| RtcInPlace.PublicationsAdvance | crates/aqua-matrix-agent/src/rtc_member.rs:654-731 | over any run without a new chain: in-place rejoins publish a `created_ts` strictly above all earlier ones and above the one named for the chain's first publication, refreshes repeat the newest one, the absolute expiry never decreases |
| RtcInPlace.InPlaceRaisesUnlessSaturated | crates/aqua-matrix-agent/src/rtc_member.rs:714-731 | an acknowledged rejoin raises `created_ts` exactly when it is below the integer ceiling |
| RtcInPlace.FailedInPlaceChangesNothing | crates/aqua-matrix-agent/src/rtc_member.rs:677-711 | a failed rejoin changes nothing but the clock |
| RtcTakeover.TakeoverIsSafe | crates/aqua-matrix-agent/src/rtc_member.rs:843-1052 | over every interleaving that loses no leave and no request, nothing of an older hold touches the membership after a newer hold's join |
| RtcTakeover.JoinIsSafeIffClean | crates/aqua-matrix-agent/src/rtc_member.rs:978-1052 | whatever was lost: an older hold may publish or leave after a join exactly when an older keeper has not stopped, its delayed leave is still scheduled, or a request of it that was cut off or answered with an error may still arrive |
| RtcTakeover.CommandLeavesHoldOnce | crates/aqua-matrix-agent/src/rtc_member.rs:936-946 | a command other than Hold is never taken back or replaced |
| RtcTakeover.OldHandleIsInert | crates/aqua-matrix-agent/src/rtc_member.rs:1135-1160 | leaving or dropping a handle whose hold was superseded does nothing |
| RtcTakeover.RefusedLeaveRemovesTheNextHold | crates/aqua-matrix-agent/src/rtc_member.rs:815-838 | a run, with one refused request and nothing else unusual, in which an old delayed leave removes the next hold |
| RtcHandOver.OnlyToldKeepersLeave | crates/aqua-matrix-agent/src/rtc_member.rs:863-895 | over every interleaving: a keeper not told to leave, whose session can be renewed, is never leaving, and only its delayed leave coming due takes the membership away on its behalf |
| RtcHandOver.ToldKeepersAskToLeave | crates/aqua-matrix-agent/src/rtc_member.rs:863-895 | over every interleaving without an abort: a keeper told to leave never hands over, and has ended only after asking the homeserver to take the membership away |
| RtcHandOver.PlainTakeOvers | crates/aqua-matrix-agent/src/rtc_member.rs:972-1052 | any number of holds one after another, every request working: joined by each in turn, never taken away, and only the newest one's delayed leave is left |
| RtcOneKeeper.RequestsDoTheirDeeds | crates/aqua-matrix-agent/src/rtc_member.rs:863-895 | in the take-over machine a request does what it asks for if acknowledged, and else what its fate says, answered or cut off |
| RtcOneKeeper.LateIsAsGood | crates/aqua-matrix-agent/src/rtc_member.rs:863-895 | a request adrift that arrives does what it would have done at once |
| RtcOneKeeper.LeavesLikeTheKeeper | crates/aqua-matrix-agent/src/rtc_member.rs:815-838 | its keeper, told to leave, goes through exactly the requests of `Keeper.Leave` and ends with its id |
| RtcOneKeeper.HandsOverLikeTheKeeper | crates/aqua-matrix-agent/src/rtc_member.rs:842-862 | the same for a hand-over |
| RtcOneKeeper.ArmsLikeTheKeeper | crates/aqua-matrix-agent/src/rtc_member.rs:583-604 | the same for scheduling the delayed leave |
| RtcOneKeeper.PublishesLikeTheKeeper | crates/aqua-matrix-agent/src/rtc_member.rs:608-731 | the same for a refresh or a rejoin |
| RtcOneKeeper.RestartsLikeTheKeeper | crates/aqua-matrix-agent/src/rtc_member.rs:733-768 | the same for a restart |
| RtcOneKeeper.BeginsBySuperseding | crates/aqua-matrix-agent/src/rtc_member.rs:936-985 | a new hold takes the slot and asks the registered keeper to hand over unless it was told something before |
| RtcOneKeeper.RetiresThePredecessor | crates/aqua-matrix-agent/src/rtc_member.rs:985-1018 | the old keeper stops or is aborted; either way its slot is emptied and what was in it is cancelled before the join |
| RtcOneKeeper.CancelsTheStaleLeave | crates/aqua-matrix-agent/src/rtc_member.rs:998-1018 | the hold joins next whether or not that worked |
| RtcOneKeeper.HoldsLikeTheKeeper | crates/aqua-matrix-agent/src/rtc_member.rs:1022-1052 | a hold fails exactly if its join does, and else leaves a registered keeper that holds what `Start` holds |
| RtcOneKeeper.DroppedHoldsLeaveTheirRequests | crates/aqua-matrix-agent/src/rtc_member.rs:1022-1052 | a hold dropped on the way leaves its request to its fate and no keeper |
| Text.Utf8LenIsLeast | crates/aqua-matrix-agent/src/lib.rs:3403-3414 | the bytes of a character are the fewest UTF-8 needs for it (section 3 of RFC 3629) |
| Text.FitIsLargest | crates/aqua-matrix-agent/src/lib.rs:3403-3414 | the cut of a budget is the longest prefix of whole characters that fits |
| Text.FitWithin | crates/aqua-matrix-agent/src/lib.rs:3403-3414 | the backward search for a character boundary finds that prefix |
| Text.Truncate | crates/aqua-matrix-agent/src/lib.rs:3403-3414 | a text that fits is unchanged; otherwise its longest fitting prefix and the ellipsis |
| Text.TruncatedSize | crates/aqua-matrix-agent/src/lib.rs:3403-3414 | truncation exceeds its budget by at most the 15 bytes of the ellipsis |
| Text.ClosedIsBalanced | crates/aqua-matrix-agent/src/lib.rs:3389-3398 | closing an open fence gives an even number of fences and adds at most four bytes |
| Text.CountConcat | crates/aqua-matrix-agent/src/lib.rs:3389-3398 | fences of two texts add up, except for one that the seam goes through |
| Splitter.LastSentenceEnd | crates/aqua-matrix-agent/src/lib.rs:3375-3386 | finds the end of the last sentence in the window |
| Splitter.PickBoundary | crates/aqua-matrix-agent/src/lib.rs:3324-3371 | picks the specified boundary |
| Splitter.BoundaryIsCleanest | crates/aqua-matrix-agent/src/lib.rs:3324-3371 | the boundary is the latest usable one of the best kind there is: paragraph, line, sentence, word, and only then a hard cut |
| Splitter.BoundarySize | crates/aqua-matrix-agent/src/lib.rs:3324-3371 | a boundary is never empty, and within the budget unless the first character alone is too large |
| Splitter.SplitForMatrix | crates/aqua-matrix-agent/src/lib.rs:3284-3321 | the loop returns the specified chunks |
| Splitter.SegmentsSound | crates/aqua-matrix-agent/src/lib.rs:3284-3321 | the segments partition the text up to trimmed whitespace, and only the last one can be truncated, as the fiftieth |
| Splitter.ChunksFit | crates/aqua-matrix-agent/src/lib.rs:3284-3321 | 1 to 50 chunks, each fence-balanced; for budgets of 8 and more at most budget + 4 bytes, + 19 for a truncated last one |
| Splitter.SplittingConserves | crates/aqua-matrix-agent/src/lib.rs:3284-3321 | without truncation the pieces keep every non-whitespace character in order |
| Splitter.CutIsLarge | crates/aqua-matrix-agent/src/lib.rs:3324-3371 | a cut consumes at least half of a budget below the minimum split, or the minimum split size |
| Splitter.NeverTruncated | crates/aqua-matrix-agent/src/lib.rs:3284-3371 | at budget 6,000 no text of up to 79,496 bytes is truncated |
| Splitter.ReopenedExactly | crates/aqua-matrix-agent/src/lib.rs:3284-3321 | a chunk is reopened exactly when the text before it has an odd number of fences, not counting those that a cut went through |
| Splitter.ReopenedAsInTheText | crates/aqua-matrix-agent/src/lib.rs:3284-3321 | when no cut goes through a fence, that is the fence parity of the original text |
| OpenGate.Gate.Failed | crates/aqua-matrix-agent/src/lib.rs:2668-2673 | one more failure, and the next attempt waits its back-off |
| OpenGate.Gate.Succeeded | crates/aqua-matrix-agent/src/lib.rs:2675-2677 | a success forgets every failure |
| OpenGate.BackOffValues | crates/aqua-matrix-agent/src/lib.rs:2660-2665 | 1, 2, 4, 8, 16 seconds, then 30 for every further failure |
| OpenGate.StreakSpans | crates/aqua-matrix-agent/src/lib.rs:2653-2678 | attempts made when the gate allows are apart by the sum of their waits |
| OpenGate.GateOpensAgain | crates/aqua-matrix-agent/src/lib.rs:2653-2678 | after a streak of failures the gate is ready exactly once the wait for their number is over: 1, 2, 4, 8 or 16 seconds, then 30 |
| OpenGate.StreakIsShort | crates/aqua-matrix-agent/src/lib.rs:2653-2678 | a streak of failing opens spanning T seconds has at most 6 + T/30 attempts |
| ReplyStream.RenderedIsPresentable | crates/aqua-matrix-agent/src/lib.rs:3265-3272 | every streaming edit is fence-balanced and at most 6,023 bytes |
| ReplyStream.RenderedShows | crates/aqua-matrix-agent/src/lib.rs:3265-3272 | what an edit shows: the buffer, or what fits of it and the note that it was cut, then a closing marker exactly if a fence is open, then the cursor |
| ReplyStream.ChunksArePresentable | crates/aqua-matrix-agent/src/lib.rs:3129-3162 | so is every chunk of the final write, and there are 1 to 50 of them |
| ReplyStream.RollOverParts | crates/aqua-matrix-agent/src/lib.rs:3165-3184 | a rollover's frozen head and its continuation share out the buffer's non-whitespace characters, in order |
| ReplyStream.RollOverReopens | crates/aqua-matrix-agent/src/lib.rs:3171-3184 | the head is closed, and the continuation begins with a fence, exactly if one is open at the clean cut; otherwise both are the text on its two sides |
| ReplyStream.FinishHolds | crates/aqua-matrix-agent/src/lib.rs:3129-3162 | frozen messages and final chunks together hold exactly the reply, apart from inserted fence markers |
| ReplyStream.Stream.RefreshRoom | crates/aqua-matrix-agent/src/lib.rs:2957-2981 | a session is minted exactly when there is a way to and none was minted in the last ten seconds |
| ReplyStream.Stream.Deliver | crates/aqua-matrix-agent/src/lib.rs:2992-3016 | one send; after a refused token a refresh exactly if there is a way and none was made in the last ten seconds, and a second send exactly if that worked; a token refused for good ends streaming |
| ReplyStream.Stream.RetryFinalize | crates/aqua-matrix-agent/src/lib.rs:2738-2770 | attempts until one is acknowledged or the token is refused, at most five, with the growing pauses between them |
| ReplyStream.Stream.PausesAre | crates/aqua-matrix-agent/src/lib.rs:2745-2770 | the pauses add up to half a second, 1.5, 3 and 5 |
| ReplyStream.Stream.Open | crates/aqua-matrix-agent/src/lib.rs:3023-3042 | an open costs at most two sends and one refresh, and extends the streak of failures exactly when it fails |
| ReplyStream.Stream.SendFirst | crates/aqua-matrix-agent/src/lib.rs:3023-3042 | tries to open the first message with the buffer exactly if streaming goes on and the gate is ready |
| ReplyStream.Stream.RollOver | crates/aqua-matrix-agent/src/lib.rs:3165-3210 | either nothing but the attempt happened, or the buffer becomes what is behind the clean cut, its fence reopened, the continuation shows it, and the old message keeps the closed head exactly if its freezing edit was acknowledged |
| ReplyStream.Stream.RollAsNeeded | crates/aqua-matrix-agent/src/lib.rs:3065-3074 | rollovers go on until the buffer fits, one fails or the limit is reached; when all goes well the messages are theirs |
| ReplyStream.Stream.CutBuffer | crates/aqua-matrix-agent/src/lib.rs:3171-3184 | the cut is the clean boundary at 6,000 bytes; the frozen head is balanced, and head and tail hold what the buffer held |
| ReplyStream.Stream.Freeze | crates/aqua-matrix-agent/src/lib.rs:3197-3201 | the frozen head replaces the old message exactly if the edit was acknowledged, and the room then shows the frozen piece |
| ReplyStream.Stream.EditNow | crates/aqua-matrix-agent/src/lib.rs:3075-3081 | sends the rendered buffer unless streaming was given up, and restarts the throttle |
| ReplyStream.Stream.Push | crates/aqua-matrix-agent/src/lib.rs:3057-3083 | the reply grows by exactly the chunk; short first texts are held back; the live message is edited to show the buffer exactly if the last edit is 700 ms old; the buffer left is that of as many rollovers as messages were opened, each of an oversized buffer, and the messages are theirs when all goes well; one that is still oversized means a failed open or the message limit |
| ReplyStream.Stream.Set | crates/aqua-matrix-agent/src/lib.rs:3088-3104 | the current message's text is replaced, frozen ones stay; it is shown exactly if the last edit is 700 ms old, or by a first message if one may be opened |
| ReplyStream.Stream.SetNow | crates/aqua-matrix-agent/src/lib.rs:3109-3120 | the same without the throttle |
| ReplyStream.Stream.Finish | crates/aqua-matrix-agent/src/lib.rs:3129-3162 | on success the room is the frozen messages and the chunks of the final text, which replaces the buffer only before any rollover; with freezing acknowledged it holds exactly the reply if that text is not blank, and does not if it is; at most 99 messages |
| ReplyStream.Stream.OpensAreSpaced | crates/aqua-matrix-agent/src/lib.rs:2653-2678 | in every reachable stream the current streak of failing opens obeys 6 + T/30 |
| ReplyStream.StreamReply | crates/aqua-matrix-agent/src/lib.rs:3057-3162 | for a whole reply and any answers: once acknowledged, the room holds exactly the text pushed exactly when the rest buffered is not blank; at most 99 messages, every body balanced and at most 6,023 bytes; a homeserver that grants every request makes it acknowledged |
| ReplyStream.SpaceSpoilsReply | crates/aqua-matrix-agent/src/lib.rs:3129-3184 | every request granted, 6,000 letters and then a space pushed: the rollover leaves a blank buffer, "(no output)" becomes the second message, and the room does not hold exactly the reply |
| TokenRotation.StepKeepsInv | crates/aqua-matrix-agent/src/lib.rs:856-1125 | every step of every client keeps the relation between file, lock and issued tokens |
| TokenRotation.PresentedIsExchangedIff | crates/aqua-matrix-agent/src/lib.rs:906-1000 | a client presents the file's token, of an identity it wants, and it was exchanged before exactly when an exchange is stranded |
| TokenRotation.ExchangedIsPresentedIff | crates/aqua-matrix-agent/src/lib.rs:906-1006 | over every interleaving: an exchanged token is presented again exactly when one is presented after a lost or unusable reply or a failed save |
| TokenRotation.RotationIsSafe | crates/aqua-matrix-agent/src/lib.rs:170-190 | when replies arrive and saves succeed, no exchanged token is presented again and the file holds the newest token whenever the lock is free |
| TokenRotation.OneInside | crates/aqua-matrix-agent/src/lib.rs:178-188 | at most one client is between load and save |
| TokenRotation.FileChangesOnlyBySaves | crates/aqua-matrix-agent/src/lib.rs:212-222 | the file changes only by a save, and never to an identity its client did not want |
| TokenRotation.OnlyDueStepsAct | crates/aqua-matrix-agent/src/lib.rs:906-1125 | a cached session is used only unforced, a refresh token spent only if there is one, a login made only without one or after a refusal |
| TokenRotation.SaveHeals | crates/aqua-matrix-agent/src/lib.rs:976-986 | a new session that is saved is the newest and never exchanged, whatever was lost before |
| TokenRotation.MarksMove | crates/aqua-matrix-agent/src/lib.rs:940-1006 | an exchange becomes stranded, and a new token is thrown away, exactly by the steps counted as such |
| TokenRotation.LostReplyPresentsAgain | crates/aqua-matrix-agent/src/lib.rs:988-996 | a lost reply makes the next rotation present the exchanged token |
| TokenRotation.Store.MintSession | crates/aqua-matrix-agent/src/lib.rs:598-621 | one client's turn is exactly the steps its answers call for; it presents the cached refresh token once if a new token is wanted or needed, and none otherwise; the token it ends with, the session left on file and the lock given back, from the file and the raw answers |
| TokenRotation.TurnComesTo | crates/aqua-matrix-agent/src/lib.rs:856-1125 | the token presented and the session on file after a turn, decided by what was on file and what was answered |
| TokenRotation.TurnIsJustified | crates/aqua-matrix-agent/src/lib.rs:906-1125 | a turn gets a token, and logs in, exactly when that calls for it: without either presenting or logging in, only a valid, wanted, confirmed one |
| TokenRotation.InsideComesTo | crates/aqua-matrix-agent/src/lib.rs:906-1125 | the same from the loaded file on |
| TokenRotation.Store.UseSession | crates/aqua-matrix-agent/src/lib.rs:906-1125 | the same from the loaded file on: cache, refresh grant or fresh login |
| TokenRotation.Store.SpendToken | crates/aqua-matrix-agent/src/lib.rs:940-1000 | the refresh branch: rotated and kept tokens are saved, network errors keep the file and end the turn, a refusal or an unusable reply falls through to a login |
| TokenRotation.Store.FreshLogin | crates/aqua-matrix-agent/src/lib.rs:1013-1125 | succeeds exactly when the login and its identity do; only then is anything saved |
| TokenRotation.Store.Install | crates/aqua-matrix-agent/src/lib.rs:1081-1125 | the identity of a login is checked before its session is saved |
| TokenRotation.Store.SaveSession | crates/aqua-matrix-agent/src/lib.rs:976-986 | a failed save keeps the old file and the lock is given back |
| ActivityCount.BatchExtends | crates/aqua-activity-watch/src/main.rs:209-238 | counting in two steps, cut at a line, is counting at once |
| ActivityCount.EmptyLinesCountNothing | crates/aqua-activity-watch/src/main.rs:209-212 | an empty line contributes nothing, whatever it would parse to |
| ActivityCount.CountIsDistinctIff | crates/aqua-activity-watch/src/main.rs:221-232 | the count never misses an id and equals the distinct ids exactly when none was counted twice; always with at most 512 |
| ActivityCount.CountIsExactIff | crates/aqua-activity-watch/src/main.rs:221-232 | the count is exact for exactly those logs in which no id returns after 512 others have first appeared since it did |
| ActivityCount.LateRepeatIsCountedAgain | crates/aqua-activity-watch/src/main.rs:221-232 | an id that returns after 512 others is counted again |
| ActivityWatch.CrossedMilestones | crates/aqua-activity-watch/src/main.rs:127-138 | the counting loop returns the specified milestones |
| ActivityWatch.CrossedExactly | crates/aqua-activity-watch/src/main.rs:127-138 | these are exactly the multiples of the step above `after` and not above the count |
| ActivityWatch.Watcher.Eat | crates/aqua-activity-watch/src/main.rs:209-234 | line by line, the count and ring become those of one fold |
| ActivityWatch.Watcher.Ingest | crates/aqua-activity-watch/src/main.rs:166-242 | the whole new state and result of one ingestion |
| ActivityWatch.Watcher.Deliver | crates/aqua-activity-watch/src/main.rs:247-295 | each alert is recorded exactly if its notifier run succeeded |
| ActivityWatch.Watcher.Poll | crates/aqua-activity-watch/src/main.rs:298-305 | an error alerts nothing; a changed state is to be saved |
| ActivityWatch.IngestIsFaithful | crates/aqua-activity-watch/src/main.rs:166-242 | however short the read, the state stays that of one fold up to its offset |
| ActivityWatch.FullPollCatchesUp | crates/aqua-activity-watch/src/main.rs:190-242 | a full read leaves no complete line behind |
| ActivityWatch.IncrementalIsBatch | crates/aqua-activity-watch/src/main.rs:166-242 | over any growth, short reads, failures and restarts from any saved state, count and ring are those of one fold |
| ActivityWatch.ResetForgets | crates/aqua-activity-watch/src/main.rs:177-190 | a file with another inode, or smaller than what was read, is read like the first one |
| ActivityWatch.GrowthIsReadOn | crates/aqua-activity-watch/src/main.rs:177-236 | the same file, not smaller, is read on from the offset, no further than its size; no count or alert is forgotten |
| ActivityWatch.IngestReports | crates/aqua-activity-watch/src/main.rs:166-242 | an error exactly if there is something to read and reading fails; otherwise whether the state changed |
| ActivityWatch.TruncationStartsOver | crates/aqua-activity-watch/src/main.rs:176-190 | after any run, a truncation in place that a poll finds smaller than the offset: a full poll counts the new content alone, and it stays so over any further growth, short reads, failures and later restarts |
| ActivityWatch.RegrownFileIsMisread | crates/aqua-activity-watch/src/main.rs:176-190 | a truncated file that has outgrown the offset is read on in the middle of a line |
| ActivityWatch.FirstMessageIsReported | crates/aqua-activity-watch/src/main.rs:250-266 | the first message is reported once there is one and the notifier works |
| ActivityWatch.DeliveredIsLatest | crates/aqua-activity-watch/src/main.rs:267-292 | after a successful delivery the last milestone is the largest multiple not above the count |
| ActivityWatch.ReportsAreEarned | crates/aqua-activity-watch/src/main.rs:247-295 | over every run, a recorded first message was there and a recorded milestone is one, not above the count |
| ActivityAlerts.RepeatedIffForgetful | crates/aqua-activity-watch/src/main.rs:247-305 | over any failures and restarts from any saved state, an alert is repeated exactly when a poll sends one from a state that does not descend from an earlier poll that sent one |
| ActivityAlerts.RepeatedIffLost | crates/aqua-activity-watch/src/main.rs:298-305 | when restarts load the newest saved state: exactly when an alert was sent after the last successful save, a restart followed before the next, and a later poll sent one again |
| ActivityAlerts.CarefulRunsRepeatNothing | crates/aqua-activity-watch/src/main.rs:298-305 | with every save successful and restarts from the newest state, no run repeats an alert and the alerts stay exact |
| ActivityAlerts.AlertsAreExact | crates/aqua-activity-watch/src/main.rs:247-295 | without restarts the alerts concatenate to the milestones up to the last one, no gap and no repeat |
| ActivityAlerts.UnsavedAlertIsRepeated | crates/aqua-activity-watch/src/main.rs:298-305 | a run that sends both alerts twice, because they were sent but not saved |
| WorkJournal.Journal.LoadOrEmpty | crates/aqua-matrix-agent/src/durable.rs:75-103 | loads what is on disk, nothing if unreadable, and writes nothing |
| WorkJournal.Journal.Enqueue | crates/aqua-matrix-agent/src/durable.rs:125-133 | appends a message exactly if its id is new |
| WorkJournal.Journal.SetToDeliver | crates/aqua-matrix-agent/src/durable.rs:137-145 | changes the state of that message only |
| WorkJournal.Journal.MarkDone | crates/aqua-matrix-agent/src/durable.rs:148-155 | removes that message only, and writes only if there was one |
| WorkJournal.Journal.PendingWork | crates/aqua-matrix-agent/src/durable.rs:158-166 | the messages owed an answer, in order |
| WorkJournal.Journal.PendingDeliveries | crates/aqua-matrix-agent/src/durable.rs:170-178 | the messages owed a delivery, in order |
| WorkJournal.Disk.Persist | crates/aqua-matrix-agent/src/durable.rs:108-120 | a rewrite takes effect whole or not at all |
| WorkJournal.WritesIff | crates/aqua-matrix-agent/src/durable.rs:105-155 | the file is rewritten exactly when a new message is accepted, or a message in the list is answered or done |
| WorkJournal.LivesAreIndependent | crates/aqua-matrix-agent/src/durable.rs:75-178 | over any run with successful rewrites, each message has the life its own operations give it, across all restarts; ids stay distinct, in order of arrival |
| WorkJournal.JournalPromise | crates/aqua-matrix-agent/src/durable.rs:1-22 | accepted messages stay until done, answered ones are only delivered, done ones do not return |
| WorkJournal.DiskIsPast | crates/aqua-matrix-agent/src/durable.rs:108-120 | whatever fails, the file equals the list at the last successful rewrite |
| WorkJournal.CrashGoesBackToTheLastWrite | crates/aqua-matrix-agent/src/durable.rs:75-120 | a crash takes the list back to that point, no further |
| WorkJournal.FailedWriteRunsAgain | crates/aqua-matrix-agent/src/durable.rs:137-145 | an answer whose rewrite failed is run again after a crash |
| PendingQuestions.PendingMap.TryResolve | crates/aqua-matrix-gating/src/pending.rs:74-93 | consumes the message exactly if a question is open, and removes the entry |
| PendingQuestions.PendingMap.Register | crates/aqua-matrix-gating/src/pending.rs:107-119 | a new ask takes the entry and closes the one it replaces |
| PendingQuestions.PendingMap.Await | crates/aqua-matrix-gating/src/pending.rs:126-141 | a value that is there wins over the timeout; a closed channel is a denial |
| PendingQuestions.PendingMap.ClearAfter | crates/aqua-matrix-gating/src/pending.rs:120-142 | a failed or timed-out ask clears the user's entry and is denied |
| PendingQuestions.PendingMap.Clear | crates/aqua-matrix-gating/src/pending.rs:145-149 | drops whatever entry the user has |
| PendingQuestions.ChannelsAreExplained | crates/aqua-matrix-gating/src/pending.rs:74-149 | a channel holds a message exactly when that message took the ask's own entry, and is closed exactly when the entry was dropped |
| PendingQuestions.AnswersAreOwn | crates/aqua-matrix-gating/src/pending.rs:126-130 | an ask is answered only by the one message that consumed its own registration |
| PendingQuestions.NoMessageAnswersTwo | crates/aqua-matrix-gating/src/pending.rs:74-93 | no message answers two asks |
| PendingQuestions.OverwrittenIsDenied | crates/aqua-matrix-gating/src/pending.rs:113-117 | an ask overwritten by a newer one never gets an answer |
| PendingQuestions.DroppedIsNeverAnswered | crates/aqua-matrix-gating/src/pending.rs:145-149 | nor does one whose entry was cleared |
| PendingQuestions.ReturnedHoldsNothing | crates/aqua-matrix-gating/src/pending.rs:135-141 | an ask that has returned leaves no entry of its own |
| PendingQuestions.NextMessageAnswers | crates/aqua-matrix-gating/src/pending.rs:74-130 | while an ask waits with an empty channel, the user's next message is its answer |
| PendingQuestions.DeniedInTimeIff | crates/aqua-matrix-gating/src/pending.rs:100-142 | an ask whose question was sent is denied without its own timeout exactly when another step took its entry |
| PendingQuestions.RobberIsAnother | crates/aqua-matrix-gating/src/pending.rs:107-149 | such a step is a newer ask, a clear or the end of another ask, for the same user |
| PendingQuestions.ConsumedIsAnswerIff | crates/aqua-matrix-gating/src/pending.rs:74-142 | a consumed message becomes the answer exactly when the ask neither timed out nor failed to send its question |
| PendingQuestions.SerialAsksKeepTheirEntries | crates/aqua-matrix-gating/src/pending.rs:37-47 | under the callers' run lock at most one ask per user is under way, and a waiting one has its entry or its answer |
| PendingQuestions.SerialAsksAreDeniedOnlyByTimeout | crates/aqua-matrix-gating/src/pending.rs:37-47 | under that lock, a question that was sent is denied exactly when its own time was up |
| PendingQuestions.OlderAskClearsNewer | crates/aqua-matrix-gating/src/pending.rs:120-124 | without it, an older ask's failed send clears a newer ask's entry |
| PendingQuestions.RepliesAreLost | crates/aqua-matrix-gating/src/pending.rs:74-142 | two runs from the start in which a reply is consumed and answers nobody: after the timeout, and before the send fails |
| Base64.Encode | crates/aqua-matrix-agent/src/rtc_keys.rs:224-245 | the loop computes the specified encoding |
| Base64.Decode | crates/aqua-matrix-agent/src/rtc_keys.rs:258-289 | the loops compute the specified decoding or error |
| Base64.Collect | crates/aqua-matrix-agent/src/rtc_keys.rs:260-264 | the significant characters become symbols, or the first foreign one is the error |
| Base64.SkippedIs | crates/aqua-matrix-agent/src/rtc_keys.rs:262 | skipped are the padding and the whitespace of ASCII, less the vertical tab |
| Base64.LetterValue | crates/aqua-matrix-agent/src/rtc_keys.rs:247-256 | the value of a letter of the alphabet is its position |
| Base64.RoundTrip | crates/aqua-matrix-agent/src/rtc_keys.rs:224-289 | decoding an encoding gives the bytes back |
| Base64.RoundTripTolerant | crates/aqua-matrix-agent/src/rtc_keys.rs:258-264 | also with padding removed or whitespace inserted anywhere |
| Base64.InsertionsAreIgnored | crates/aqua-matrix-agent/src/rtc_keys.rs:260-264 | padding or whitespace inserted into any text changes neither result nor error |
| Base64.DecodingFailsIff | crates/aqua-matrix-agent/src/rtc_keys.rs:258-289 | decoding fails exactly on a foreign byte or a symbol count of 1 modulo 4 |
| Base64.EncodingKeepsBits | crates/aqua-matrix-agent/src/rtc_keys.rs:224-245 | the symbols are the bits of the input in order, then zeros (section 4 of RFC 4648) |
| Base64.EncodedShape | crates/aqua-matrix-agent/src/rtc_keys.rs:224-245 | an encoding is the letters of its symbols, then the padding |
| Base64.EncodedSize | crates/aqua-matrix-agent/src/rtc_keys.rs:224-245 | four characters per started group of three bytes |
| Base64.CanonicalIff | crates/aqua-matrix-agent/src/rtc_keys.rs:266-289 | decoding and encoding again spells the same symbols exactly when the last one has no stray bits |
| DmSelection.WithoutObserved | crates/aqua-matrix-agent/src/dm.rs:64-79 | keeps the specified members, in order |
| DmSelection.VerdictIs | crates/aqua-matrix-agent/src/dm.rs:64-130 | a room is not one-to-one exactly when somebody unobserved is in it; otherwise the peer's own membership decides |
| DmSelection.StateOfIs | crates/aqua-matrix-agent/src/dm.rs:110-130 | the peer's membership is that of its first entry |
| DmSelection.CaseIsIgnored | crates/aqua-matrix-agent/src/dm.rs:64-79 | observers are matched up to the case of ASCII letters |
| DmSelection.MoreObserversKeepUsable | crates/aqua-matrix-agent/src/dm.rs:64-130 | a longer observer list never makes a usable room unusable or changes its rank |
| DmSelection.PickDmCandidate | crates/aqua-matrix-agent/src/dm.rs:149-161 | filters, sorts and takes the first |
| DmSelection.PickIsBest | crates/aqua-matrix-agent/src/dm.rs:149-161 | the choice is the room no usable candidate beats (joined over invited, recorded as direct over not, newer over older, smaller id), and none exactly when none is usable |
| DmSelection.StringBeforeIs | crates/aqua-matrix-agent/src/dm.rs:149-161 | room ids are compared at the first character where they differ |
| DmSelection.PickIgnoresOrder | crates/aqua-matrix-agent/src/dm.rs:149-161 | the choice does not depend on the order of the candidates |

## Left out

- RtcTiming.SwitchNeverFires: speaks of the leave whose id the keeper holds; a leave that was scheduled without its id arriving is outside it.
- RtcInPlace.PublicationsAdvance: starts from a keeper with a known anchor; without one `next_created_ts` reads the host clock, and no order can be claimed.
- RtcTakeover.TakeoverIsSafe: abstracts from time; a keeper that is stopped within the timeout and one that is aborted are different events.
- ReplyStream.Stream.Finish: what the room holds is stated for a buffer whose split is not truncated; up to 79,496 bytes none is (Splitter.NeverTruncated).
- ReplyStream.StreamReply: runs `push` and `finish`; `set` and `set_now` replace text and have their own contracts.
- TokenRotation.RotationIsSafe: the lock is per process, so clients in other processes are not covered, and neither is the re-registration of the OIDC client, which saves the session it loaded.
- RtcHandOver.OnlyToldKeepersLeave: leaves out a keeper whose session can no longer be renewed; it leaves of its own accord.
- RtcKeeper.Keeper.Step: the `fatal` check between two steps of a tick appears only in RtcTakeover, as a keeper that stops.
- PendingQuestions.PendingMap.TryResolve: a poisoned lock is not modelled, and neither is an `ask` whose future is dropped before it returns.
- ActivityWatch.Watcher.Ingest: what a line parses to (UTF-8, trimming, JSON) is a parameter; so is what the file system answers.
- DmSelection.PickDmCandidate: sorts by insertion where the original calls the library's stable sort.
- Integer widths: counters and millisecond values do not overflow here, except for the `created_ts` ceiling and the 32-bit failure counter, which are modelled.
- A request that the homeserver carries out after it was answered with an error, except in the take-over machine, where each such request takes effect at once, later or never.
- Failure counters and their log lines, access tokens and HTTP details inside the transports, Markdown rendering, mention pills.
- Outage handling in `net_retry.rs`, calls, media, recovery, registries, MCP servers, deployment: wrappers or smaller versions of machines modelled here.
