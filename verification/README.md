# loomcycle: a verified model of its stateful core

loomcycle runs agents and exposes them to other systems. This project models the parts of it that
keep state over time, and proves what they promise over every run:

- **The A2A run bridge** (`internal/a2a`). A run is detached from the request that started it and
  feeds a bounded channel; one Execute call at a time reads that channel; a run that asks a question
  is parked in a registry until a later call takes it up. `A2ABridge` is the bridge as a transition
  system (producers, channels, `done`, cancels, calls, parks); a trace is one interleaving.
  `A2ABridgeProofs` holds the invariant, `A2ABridgeTheorems` what follows from it for the runs and
  `A2ABridgeCalls` what follows for one call.
- **The landing's account flow** (`cloud-deployment/landing/server.js`). `Limiter` is the
  sliding-window limiter proved against an unpruned history, `TenantLock` the promise-chain lock
  proved to be a queue, and `Signup` the signup handler as atomic steps between awaits, interleaved
  freely over both; `SignupRecord` ties what the handlers keep to the steps alone. `TeamInvite` is the refusal budget of member invites.
- **The image slot** (`cloud-web/image-slot.js`): the sidecar store (`SlotStore`), the replacement
  mask (`SlotMask`) and the crop arithmetic over the reals (`CropGeometry`).
- **The synthesis benchmark** (`bench/synthesis`): graph expansion (`Retrieval`), its control graphs
  and the content budget (`Rewiring`), the corpus generator (`Corpus`, `CorpusSessions`) and the
  exact paired test (`PairedTest`).
- **The sandbox sidecar** (`deploy/builder`): the session registry (`SandboxStore`) and the bounded
  output buffer (`BoundedBuffer`). **The prime sieve** of `examples/exp9-prime-sql-memory` (`Sieve`).

An object the source updates in place is a class whose methods are proved equal to step functions;
the theorems are about those functions and about traces of them. `dafny verify dfyconfig.toml`
checks everything.

## What the code does not promise

Each of these is a property one would expect that fails. The condition under which it holds is proved
in both directions, and the failure is shown on a run or an input.

- **A run can be lost without a failed resume.** A park that overwrites a live park of the same task
  drops that run without cancelling it. A run is lost by exactly that or a failed resume
  (`A2ABridgeTheorems.LostExactlyBy`); `A2ABridgeLoss.OverwriteLosesRun` is such a run. It cannot happen
  as long as a fresh run starts only when no other run of its task is being read or parked
  (`OnlyResumeFailuresLose`).
- **Signup slots are documented to come back only when nothing was written.** They also come back in
  exactly three other cases, when no revoke was sent and no owner row acknowledged
  (`SignupTheorems.FreedThoughWritten`): the invite took effect, then or later, but its answer timed out
  or was a runtime fault; the owner row did, likewise; or the invite did and writing the response
  raised. `SignupExceptions` holds a run of each. For the last, `res.json` would have to raise: it does
  when the headers are already out, which nothing in this handler causes, so the run stands for whatever
  middleware or runtime might; the `catch` in the source admits it all the same.
- **More than 50 website invites, or two of one login, can be live**, but only by creates that took
  effect after their handler had given them up: without those the bounds hold
  (`SignupTheorems.LiveInvitesBounded`). `SignupExceptions.LateInviteIsSecond` is a run with two.
- **The spinner can stick on a slot that is off the page**, exactly when the newest encode lands there
  under a raised mask with no load pending, its save not throwing, and nothing that unsticks it has
  come since: a render (a connect, or a write of any observed attribute), a settling img, a further
  drop, or that encode failing (`SlotMask.StuckExactly`, `StickingHappens`).
- **A new image can leave part of the frame uncovered.** The load listener lays the image out without
  clamping. In cover mode there is a gap if and only if the image was laid out under a view panned
  further than it reaches past the frame, and no pan, resize, zoom or render, nor a layout that fits the
  view, has come since (`CropGeometry.CoversUnlessLaidOut`, `LoadUncovers`).
- **An edit can stay unwritten.** With nothing in flight or put off, the last write issued is what
  memory holds if and only if no save failed, with memory unlike the last write, without a flush, a
  save that wrote, or an edit back since (`SlotStore.LastWriteIsCurrent`, `AbsentWriterLosesEdit`). A
  writer that throws instead of returning a promise leaves the saving flag up for good: no later save
  writes anything, whatever the writer then does (`JammedForGood`, `ThrowingWriterLosesLaterEdits`).
- **exec's truncation marker can be a false alarm**, exactly when the output just fills the limit
  (`BoundedBuffer.DropIsAnnounced`). The `truncated` flag depends on the chunking in that one case only
  (`FlagIgnoresChunking`).
- **fill's comment speaks of taking facts until the budget is spent.** The code passes over a fact that
  does not fit and goes on. The two agree if and only if no fact after the first misfit would have
  fitted in what was left there (`ContentBudget.StopsAsDocumented`, `GoesOnPastAMisfit`).

## Assumptions

Clocks of the landing do not run backwards (the sandbox and the park registry need no such
assumption). Invite ids are new when created. An acknowledged create took effect, and one that raised
before it was sent did not; any other answer, a timeout among them, leaves it open, and a create
answered by a timeout or a server error may take effect at any later time. Invite ids are well formed,
so that `revokeLive` passes none over. A revoke that
answers "not live" found the invite not live. When the landing starts, the invites upstream already
keep to the cap and to one per login. Random draws and shuffles are arbitrary inputs. Session ids are
never used twice. In the crop arithmetic an ancestor scales a slot uniformly.

## Model

| member | source | states |
|---|---|---|
| A2AEvents.Translate | internal/a2a/events.go:33-75 | a start or a non-empty piece of text makes exactly one client event, a working or artifact one, and nothing else makes any, so translation can never close a stream |
| A2AEvents.Shown | internal/a2a/executor.go:423-429 | INPUT_REQUIRED is shown for an interruption and for nothing else, carrying its question |
| A2AEvents.OneRequestPerQuestion | internal/a2a/executor.go:295-329 | over any event sequence there are as many INPUT_REQUIRED as interruptions |
| A2AEvents.ClientGetsTheText | internal/a2a/events.go:33-75 | the artifacts joined are exactly the run's text in order, and there is one working beat per start |
| A2AEvents.NothingElseShown | internal/a2a/events.go:33-75 | over any event sequence there are exactly as many yields as starts, non-empty texts and questions |
| A2AEvents.TerminalStatusForRun | internal/a2a/events.go:94-104 | a status exists exactly for the four final run states, and is then a terminal task state |
| A2AEvents.ClosingEvent | internal/a2a/executor.go:395-417 | the closing event is always terminal; completed, canceled and rejected appear exactly for those rows without a run error, a failed row closes with its error or else its stop reason, and everything else closes as failed with one fixed message |
| ParkRegistry.Registry.constructor | internal/a2a/interruption.go:128-130 | an empty registry |
| ParkRegistry.Registry.Put | internal/a2a/interruption.go:140-154 | afterwards exactly the parks within their time are left beside the new one, untouched, and exactly the runs of those past it were cancelled |
| ParkRegistry.Registry.Take | internal/a2a/interruption.go:162-170 | hands out the park if there is one and removes it, so a park is taken at most once |
| A2AStream.StreamToClient | internal/a2a/executor.go:294-341 | how the loop ends decides everything: at the end of the stream all events and one closing event were yielded; at a question everything up to it, and the run is parked or cancelled and the expired parks reaped; when the client leaves the run is cancelled and nothing follows the refused yield |
| A2AStream.AskClient | internal/a2a/executor.go:296-324 | at a question: without a resolver the run is cancelled; otherwise it is parked and stays so exactly if the client stayed; and exactly the expired parks are cancelled on the way |
| A2ABridgeProofs.InvAlways | internal/a2a/executor.go:157-417 | the bridge's invariant (places agree with phases and registry, channels bounded, yields in grammar, calls lined up per run) holds in every reachable state |
| A2ABridgeTheorems.SpotsAreThePlace | internal/a2a/executor.go:157-417 | who reads a run, where it is parked and whether it is cancelled is one and the same fact |
| A2ABridgeTheorems.LostExactlyBy | internal/a2a/executor.go:348-384 | a run becomes unreachable by exactly two kinds of step: a failure return of its own resume, or a park that overwrites its live entry |
| A2ABridgeTheorems.OnePlaceUnlessLost | internal/a2a/executor.go:246-341 | in every interleaving an unfinished run is in exactly one place (one reader, one park, or cancelled) if and only if no earlier step lost it |
| A2ABridgeTheorems.OnlyResumeFailuresLose | internal/a2a/executor.go:348-384 | with one attended run per task, an unfinished run is in exactly one place if and only if no resume of it took one of its four failure returns |
| A2ABridgeLoss.OverwriteLosesRun | internal/a2a/executor.go:308-314 | a run of the bridge, without a failed resume, in which two runs of one task both ask and the first, still running, ends up read by nobody, parked nowhere and not cancelled |
| A2ABridgeTheorems.NothingLostOrRepeated | internal/a2a/executor.go:294-341 | at every moment the yields of all calls that streamed a run, joined in order, are the translation of exactly the events received so far |
| A2ABridgeTheorems.HistoryIsTrue | internal/a2a/executor.go:265-279 | a run's history is what the steps did: exactly the events RunOnce reported, in order, and ended exactly when it returned, with what it returned |
| A2ABridgeTheorems.ChannelIsBounded | internal/a2a/executor.go:249 | the channel never holds more than sixteen events |
| A2ABridgeTheorems.DeliveredInOrder | internal/a2a/executor.go:246-392 | once a run is drained and its clients stayed, across any number of parks and resumes the yields of exactly the calls that streamed it, joined, are the translation of every event RunOnce reported in the steps, in order, one INPUT_REQUIRED per question |
| A2ABridgeTheorems.StageOnlyAdvances | internal/a2a/executor.go:265-279 | once the run has returned it stays returned and its error is never written again |
| A2ABridgeTheorems.ErrorReadOnlyWhenFinal | internal/a2a/executor.go:339-340 | the closing event is made from what RunOnce returned with, which is also the run error at any later time: it is read only when final |
| A2ABridgeTheorems.EveryStreamWellFormed | internal/a2a/executor.go:157-224 | every Execute stream follows the grammar at every moment, and one that returned with its client listening is closed |
| A2ABridgeTheorems.ClosedStreams | internal/a2a/executor.go:157-224 | what the grammar accepts: a lone error, or SUBMITTED first exactly when no task was stored, then working and artifact events, then one closing event |
| A2ABridgeTheorems.SilentAfterRefusal | internal/a2a/executor.go:312-335 | after a yield answered false the call yields nothing more, ever |
| A2ABridgeCalls.StreamsTheParkedRun | internal/a2a/executor.go:164-175 | a message to a stored task with a run parked takes that very run up and streams no other; any other message streams, if any, a run started after it |
| A2ABridgeCalls.VerdictDecides | internal/a2a/executor.go:189-222 | a rate refusal is a lone error with its text; bad input one FAILED status with its cause, SUBMITTED before it exactly without a stored task; neither starts a run; an accepted message gets one unless its client left at SUBMITTED |
| A2ABridgeCalls.ClosingIsYielded | internal/a2a/executor.go:395-417 | the closing event a call settled on is the last thing it yields, with nothing between |
| A2ABridgeCalls.EndsWithTheResult | internal/a2a/executor.go:339-340 | a drained run's call ends with the closing event of what RunOnce returned and the row said |
| A2ABridgeCalls.FailedResumeSaysWhy | internal/a2a/executor.go:348-383 | a failed resume yields one FAILED status with the message of the check that failed |
| A2ABridgeCalls.LeavingStopsTheRun | internal/a2a/executor.go:328-336 | a client that leaves in mid-stream cancels the run at once |
| A2ABridgeCalls.LeavingAtParkStopsTheRun | internal/a2a/executor.go:316-325 | a client that leaves at the question: before the call returns it looks for the park again and the run found there is cancelled |
| Grants.GrantBounded | cloud-deployment/landing/server.js:367-371 | a grant made only when the window is not full keeps every grant's window within the limit |
| Grants.ReleaseBounded | cloud-deployment/landing/server.js:372-376 | releases keep it too |
| Grants.AtMostMaxPerWindow | cloud-deployment/landing/server.js:350-379 | any stretch of one window's length holds at most max unreleased grants of a key |
| Grants.NotFullLater | cloud-deployment/landing/server.js:361 | a key with room still has room later as long as nobody takes under it |
| SlidingWindow.PruneAgrees | cloud-deployment/landing/server.js:352 | pruning at a later time loses no grant that can still count |
| SlidingWindow.GrantAgrees | cloud-deployment/landing/server.js:370-371 | a stored list agrees with the full history after a grant |
| SlidingWindow.ReleaseAgrees | cloud-deployment/landing/server.js:372-376 | a stored list agrees with the full history after a release, also of a hit pruned long ago |
| SlidingWindow.LiveAgrees | cloud-deployment/landing/server.js:352 | the pruned list filtered to now holds exactly the unreleased, unexpired grants of the full history |
| SlidingWindow.Splice | cloud-deployment/landing/server.js:373-375 | removes the hit with that identity and only it, keeping the order; a list without it is unchanged |
| SlidingWindow.Swept | cloud-deployment/landing/server.js:353-359 | every list is pruned to its live hits and no empty list is kept |
| SlidingWindow.Limiter.constructor | cloud-deployment/landing/server.js:350-351 | an empty limiter that agrees with the empty history |
| SlidingWindow.Limiter.IsFull | cloud-deployment/landing/server.js:361 | full exactly when max unreleased grants of the key were made since one window ago, in the full unpruned history |
| SlidingWindow.Limiter.Take | cloud-deployment/landing/server.js:367-378 | refuses exactly when max unreleased grants of the key were made since one window ago, and otherwise records one new grant of that key and time under its own identity; agreement is kept |
| SlidingWindow.Limiter.Release | cloud-deployment/landing/server.js:372-376 | releases its own grant only, other keys untouched, and a second call changes nothing, even after pruning |
| SlidingWindow.Limiter.Sweep | cloud-deployment/landing/server.js:353-359 | changes no answer: the history is as before and agreement is kept |
| TenantLock.TenantLocks.constructor | cloud-deployment/landing/server.js:385 | no caller, no entry |
| TenantLock.TenantLocks.EnterLock | cloud-deployment/landing/server.js:387-391 | the fields change as the step the theorems speak of |
| TenantLock.TenantLocks.LeaveLock | cloud-deployment/landing/server.js:395-398 | likewise for the finally block, whether or not the body threw |
| TenantLock.LockSafety | cloud-deployment/landing/server.js:385-399 | bodies of one tenant never overlap and start in arrival order; the map has an entry for a tenant exactly while a caller of it is queued or running |
| TenantLock.RefinesQueue | cloud-deployment/landing/server.js:385-399 | the promise chain is a first-in first-out queue per tenant: every step is an append, a start at the head, a removal of the head, or nothing |
| TenantLock.TailCanSettle | cloud-deployment/landing/server.js:388-391 | the promises of ended callers can all settle, one step each |
| TenantLock.HeadGetsItsTurn | cloud-deployment/landing/server.js:392 | a waiter whose predecessors ended may start after at most as many settlings as there were callers before it |
| SignupProofs.HandlersStep | cloud-deployment/landing/server.js:624-673 | every step keeps each handler's slots and flags in agreement with what it sent upstream |
| SignupProofs.LimitsStep | cloud-deployment/landing/server.js:400-408 | every step keeps all three limiters within their limits |
| SignupProofs.LockStep | cloud-deployment/landing/server.js:665 | every step keeps the handler inside a tenant's lock at the head of its queue |
| SignupTheorems.InvAlways | cloud-deployment/landing/server.js:624-782 | the signup invariant holds in every reachable state of every interleaving |
| SignupTheorems.VisitorSlotsAllOrNone | cloud-deployment/landing/server.js:624-673 | at exit the address, identity and day slots are all kept or all released; after the flow ran they are released exactly when no revoke was sent, no owner was made, and the failure was unexpected, or an answer of nothing, a server error or a code outside the fifteen listed |
| SignupTheorems.FreedThoughWritten | cloud-deployment/landing/server.js:662-772 | the slots come back although something took effect upstream, then or later, if and only if no revoke was sent, no owner acknowledged, and the invite or the owner row took effect under a runtime fault or the invite did and the response raised; that invite is one of the website, for the visitor |
| SignupExceptions.LandedCreateGivesSlotsBack | cloud-deployment/landing/server.js:762-772 | a run in which a create that took effect but never answered gives the slots back with the invite live |
| SignupExceptions.LandedOwnerGivesSlotsBack | cloud-deployment/landing/server.js:692-693 | a run in which an owner row that took effect but never answered does the same |
| SignupExceptions.FailedResponseGivesSlotsBack | cloud-deployment/landing/server.js:666-672 | a run in which a response that raises after the acknowledged create does the same |
| SignupExceptions.LateInviteIsSecond | cloud-deployment/landing/server.js:443-451 | a run in which a create given up lands after its retry succeeded, and its login has two live invites |
| SignupTheorems.TenantSlotExactly | cloud-deployment/landing/server.js:733-782 | the shared tenant's slot stays held exactly when an invite was acknowledged and no revoke was sent |
| SignupTheorems.AtMostTwentyADay | cloud-deployment/landing/server.js:733-782 | at most 20 acknowledged non-replacing invites have their reservation in any 24-hour window |
| SignupRecord.RecordIsTrue | cloud-deployment/landing/server.js:624-782 | what a handler keeps about its past, its result and its place is what the steps did: revokes sent, creates acknowledged or in effect, and the answer or exception that ended it |
| SignupRecord.SlotsByTheReply | cloud-deployment/landing/server.js:329-333 | at exit, by the steps alone: slots back when the flow never ran; kept once a revoke was sent or an owner acknowledged; else back exactly for something unexpected, status 0, status 500 and up, or a code outside the fifteen |
| SignupRecord.CreatedOnlyWhenDue | cloud-deployment/landing/server.js:678-765 | an invite is created only for a visitor without an account, after every listed invite was revoked, for a new tenant after its owner was acknowledged, once, and not past the cap |
| SignupRecord.RevokesWhatItListed | cloud-deployment/landing/server.js:578-585 | a revoke is of the next invite on the list, and one that succeeds leaves it dead |
| SignupRecord.FiftyIsFull | cloud-deployment/landing/server.js:755-758 | shared mode turns a visitor away at the list exactly when fifty live website invites are of other logins |
| SignupRecord.AdmittedExactly | cloud-deployment/landing/server.js:629-649 | a visitor gets in exactly while fewer than ten an hour are held by address and by identity, and in shared mode fewer than three a day by identity and twenty by tenant |
| SignupRecord.SlotsAreTheVisitors | cloud-deployment/landing/server.js:629-645 | a handler's slots stay under the visitor's own address, identity and tenant, at the time they came |
| SignupRecord.HeldSlotsBounded | cloud-deployment/landing/server.js:400-408 | of the slots taken in any one hour at most ten are still held per key; of any one day three and twenty |
| SignupTheorems.LiveInvitesBounded | cloud-deployment/landing/server.js:733-782 | in shared mode, from any invites upstream within the bounds and over any interleaving with redemptions, expiries, operator revokes and creates that land late, at most 50 website invites that did not land late are live and no login has two of them; each further one landed late |
| TeamInvite.EveryRefusalCounted | cloud-deployment/landing/server.js:834-850 | the slot taken for a refusal after the upstream call is always granted, because the budget was read under the same lock; so every refusal counts, nothing else does, and no identity meets more than ten a day |
| TeamInvite.TurnedAwayExactly | cloud-deployment/landing/server.js:837 | a request is turned away without asking exactly when ten refusals of its identity lie within the last day |
| SlotStore.Sidecar.constructor | cloud-web/image-slot.js:162-168 | the store before anything happened |
| SlotStore.Sidecar.OnFetched | cloud-web/image-slot.js:174-191 | the merge loop leaves the file overlaid with the local edits and without the cleared ids |
| SlotStore.Sidecar.Save | cloud-web/image-slot.js:220-228 | hands the writer the current slots exactly when idle and it works; else marks one to follow, does nothing for want of a writer, or raises with the saving flag left up |
| SlotStore.Sidecar.SetSlot | cloud-web/image-slot.js:241-250 | a value is held under its id afterwards, a cleared id is absent, every other id is as before; and it saves now or after the load |
| SlotStore.Sidecar.OnWriteSettled | cloud-web/image-slot.js:227 | ends the write and fires the one that was marked |
| SlotStore.HydrationKeepsLocalEdits | cloud-web/image-slot.js:170-195 | over any run up to the merge: an id last given a value keeps it, inheriting the file's image only if it carried framing alone; an id last cleared is absent; any other id has the file's value |
| SlotStore.EditsAfterLoad | cloud-web/image-slot.js:241-250 | from the load on every id holds what its last edit since gave it, nothing once cleared, and else what the load left; a load without a file leaves the local edits |
| SlotStore.LastEditDecides | cloud-web/image-slot.js:241-250 | the same between any two moments with no merge between |
| SlotStore.MergedOnce | cloud-web/image-slot.js:170-172 | the file is merged at most once, and never after a failed fetch |
| SlotStore.LastWriteIsCurrent | cloud-web/image-slot.js:201-228 | at most one save is in flight; when none is and none is put off, the last write issued is what memory holds if and only if no save failed, with memory unlike the last write, without a healing step since |
| SlotStore.FileHoldsTheEdits | cloud-web/image-slot.js:201-250 | once loaded, quiet and not broken, the file was last given, for every id, what its last edit made of what the load left |
| SlotStore.StaleStep | cloud-web/image-slot.js:201-228 | for each step exactly when it leaves an edit unwritten and exactly when it mends that |
| SlotStore.AbsentWriterLosesEdit | cloud-web/image-slot.js:222-223 | a run in which an edit made before the writer is there is never written |
| SlotStore.JamStep | cloud-web/image-slot.js:224-227 | the saving flag is left up with no write behind it exactly when an idle save meets a writer that throws |
| SlotStore.JammedForGood | cloud-web/image-slot.js:220-228 | from then on it stays up, and nothing but a flush writes |
| SlotStore.ThrowingWriterLosesLaterEdits | cloud-web/image-slot.js:220-228 | a run in which an edit made with a working writer is not written, because an earlier call threw |
| SlotMask.ImageSlot.constructor | cloud-web/image-slot.js:545-550 | a blank slot |
| SlotMask.ImageSlot.ReleaseMask | cloud-web/image-slot.js:957-965 | the mask comes off only with no claim and no load pending, and nothing else changes |
| SlotMask.ImageSlot.RenderContent | cloud-web/image-slot.js:1123-1170 | the fields change as the render step the theorems speak of |
| SlotMask.ImageSlot.Ingest | cloud-web/image-slot.js:877-898 | a drop takes a new generation and claims the mask of a filled slot |
| SlotMask.ImageSlot.Encoded | cloud-web/image-slot.js:901-914 | an encode stores its image only if it is the newest generation; a save that throws releases the mask as the catch does |
| SlotMask.ImageSlot.EncodeBroke | cloud-web/image-slot.js:915-921 | a failed encode gives up its claim only if it is the newest generation |
| SlotMask.ImageSlot.SrcChanged | cloud-web/image-slot.js:845-851 | a changed src supersedes every running encode; an unchanged one does not |
| SlotMask.ImageSlot.OnImgSettled | cloud-web/image-slot.js:601-609 | load and error both end the pending load |
| SlotMask.SpinnerCannotStick | cloud-web/image-slot.js:877-965 | over any run: a claim means the newest encode is still running; on a connected slot a raised mask means a pending load or a claim; so with neither it is down |
| SlotMask.InFlightIsTrue | cloud-web/image-slot.js:886-902 | the encodes the theorems call running are those started and not come back, by the steps |
| SlotMask.MaskedWhileEncoding | cloud-web/image-slot.js:895-898 | from a drop on a shown image until its encode comes back the mask is up and claimed by it, unless something newer comes or the slot is emptied |
| SlotMask.SwapIsMasked | cloud-web/image-slot.js:1125-1140 | an image that takes another's place does so under the mask with its load pending |
| SlotMask.PickIsMasked | cloud-web/image-slot.js:1157-1162 | so does one hidden for a moment because its src was written before its credit |
| SlotMask.ShowsTheRightImage | cloud-web/image-slot.js:1094-1170 | a slot on the page shows the user's image if there is one, else its src unless that owes a credit it does not have |
| SlotMask.ContentChangesOnlyBy | cloud-web/image-slot.js:877-925 | the user's image changes only by the newest encode, another writer or a new id; src and credit only by their own writes |
| SlotMask.MaskLiftsOnlyWhenSettled | cloud-web/image-slot.js:957-965 | no step takes the mask off while a load or a claim is outstanding, unless it leaves no image at all |
| SlotMask.StuckStep | cloud-web/image-slot.js:877-965 | for each step exactly when it leaves the mask up with nothing to wait for and exactly when it ends that |
| SlotMask.StuckExactly | cloud-web/image-slot.js:877-965 | over any run the spinner is stuck if and only if the newest encode landed off the page under a raised mask with no load pending, its save not throwing, and nothing that unsticks it came since; a stuck slot is off the page |
| SlotMask.StickingHappens | cloud-web/image-slot.js:901-914 | a run from a blank slot that ends stuck |
| SlotMask.GenerationsRise | cloud-web/image-slot.js:845-851 | the generation is larger exactly when a drop or a src change came between |
| SlotMask.OvertakenEncodeNeverStores | cloud-web/image-slot.js:901-914 | an encode stores its image if and only if no newer drop or src change overtook it |
| CropGeometry.GeomOf | cloud-web/image-slot.js:975-984 | in cover mode the laid-out image reaches the frame's size on both axes |
| CropGeometry.GeomIsTight | cloud-web/image-slot.js:979-983 | at rest the image just meets the frame on one axis, reaching past it on the other in cover mode and staying inside in contain mode |
| CropGeometry.CoverIsWide | cloud-web/image-slot.js:975-984 | and stays so at every scale of at least one |
| CropGeometry.ClampPerAxis | cloud-web/image-slot.js:986-994 | after clamping each axis covers the frame, or is smaller than it and centred; a view that covers is left alone |
| CropGeometry.ClampIsNearest | cloud-web/image-slot.js:986-994 | the clamp moves the view no further than it must: no covering view of that scale is nearer on either axis |
| CropGeometry.GeomOnScreen | cloud-web/image-slot.js:632-637 | the geometry computed from a scaled slot's screen rectangle is the slot's own, scaled |
| CropGeometry.ScaleInvisible | cloud-web/image-slot.js:632-637 | in percent of the frame the image box is the same at every screen scale |
| CropGeometry.OppositeCornerFixed | cloud-web/image-slot.js:647-657 | before clamping a corner resize leaves the opposite corner exactly where it was, at any scale |
| CropGeometry.DragScaleAtRest | cloud-web/image-slot.js:647-651 | with the cursor on the corner it took, the requested scale is the one the drag began with |
| CropGeometry.DragScaleAlong | cloud-web/image-slot.js:647-651 | with the cursor t diagonals from the opposite corner the scale asked for is t times the one at the press, kept between one and five |
| CropGeometry.DragStartsAtRest | cloud-web/image-slot.js:640-657 | a drag does not jump: there the whole view is the one it began with |
| CropGeometry.PointUnderCursorFixed | cloud-web/image-slot.js:685-700 | before clamping a wheel zoom scales by its factor, kept between one and five, and keeps the image point under the cursor |
| CropGeometry.PanFollowsCursor | cloud-web/image-slot.js:661-663 | before clamping a pan moves the image by exactly the cursor's way in pixels and does not scale it |
| CropGeometry.ShowsWhatWasAsked | cloud-web/image-slot.js:658-665 | where no clamp is needed a render shows the stored view or keeps the one being framed, and a pan lands where the press was plus the whole way, whatever moves came between |
| CropGeometry.Reframe.constructor | cloud-web/image-slot.js:565 | a new element: no geometry yet, the view at rest |
| CropGeometry.Reframe.Clamp | cloud-web/image-slot.js:986-994 | afterwards there is no gap under the geometry that then holds; without one nothing changes |
| CropGeometry.Reframe.Handle | cloud-web/image-slot.js:631-700 | every event keeps the scale in range, and leaves a gap exactly if it lays the image out under a view panned too far, or there was one and it neither clamps nor lays out anew; a drag measures by the rectangle it was pressed in |
| CropGeometry.AlwaysCovers | cloud-web/image-slot.js:631-700 | over any sequence of pans, wheel zooms, corner resizes and renders, and layouts that fit the view, the image box contains the frame whenever the fit is cover |
| CropGeometry.GapIsOverpan | cloud-web/image-slot.js:986-994 | part of the frame is uncovered if and only if the pan exceeds half the overflow on an axis |
| CropGeometry.GapStep | cloud-web/image-slot.js:601-605 | for each event exactly when it leaves a gap |
| CropGeometry.CoversUnlessLaidOut | cloud-web/image-slot.js:601-700 | over any run there is a gap if and only if the image was laid out, by its load or a moved frame, under a view panned too far for it, and nothing that mends that came since |
| CropGeometry.LoadUncovers | cloud-web/image-slot.js:601-605 | a run of a wide image framed to one side and then a square one, which ends with a gap |
| FactGraph.Index | bench/synthesis/db3_retrieval.py:71-75 | both maps list exactly each key's neighbours in edge order, and nothing for a key without any |
| FactGraph.Visit | bench/synthesis/db3_retrieval.py:139-144 | visiting one fact's entities appends the unseen facts in the order met, each once |
| FactGraph.VisitFacts | bench/synthesis/db3_retrieval.py:140-144 | the same for the facts of one entity |
| FactGraph.Round | bench/synthesis/db3_retrieval.py:137-144 | one round finds the unseen facts one hop from the frontier, first occurrence first |
| FactGraph.Expand | bench/synthesis/db3_retrieval.py:128-148 | the three nested loops with their early stop compute the layered order that the next rows characterise |
| FactGraph.ExpandsExactly | bench/synthesis/db3_retrieval.py:128-148 | a fact is in the result at depth d if and only if it is within d fact-entity-fact hops of a seed |
| FactGraph.EachOnce | bench/synthesis/db3_retrieval.py:128-148 | for distinct seeds every fact occurs once |
| FactGraph.NearerFirst | bench/synthesis/db3_retrieval.py:128-148 | facts come in nondecreasing distance |
| RetrievalOrder.FirstMetFirst | bench/synthesis/db3_retrieval.py:138-144 | within a layer facts come as first met: by the earliest fact of the layer before, then its earliest entity, then the earliest edge |
| RetrievalOrder.EntitiesInEdgeOrder | bench/synthesis/db3_retrieval.py:73-74 | a fact's entities are those of all its edges in the order the edges come |
| RetrievalOrder.FactsInEdgeOrder | bench/synthesis/db3_retrieval.py:73-75 | likewise an entity's facts |
| FactGraph.ShallowerIsPrefix | bench/synthesis/db3_retrieval.py:128-148 | the result at a smaller depth is a prefix of that at a larger one, the seeds at depth 0 |
| FactGraph.NothingAfterEmpty | bench/synthesis/db3_retrieval.py:145-146 | after a round that found nothing no round finds anything |
| FactGraph.EarlyStopIsClosure | bench/synthesis/db3_retrieval.py:145-146 | so an early stop means everything reachable in any number of hops is there |
| Rewiring.ShuffleKeepsDegrees | bench/synthesis/db3_retrieval.py:77-87 | shuffling targets keeps the edge count, every fact's out-degree and every entity's in-degree |
| Rewiring.Thinned | bench/synthesis/db3_retrieval.py:89-116 | the grouping loop emits each fact's kept edges, facts in order of first appearance |
| Rewiring.ThinnedExactly | bench/synthesis/db3_retrieval.py:89-116 | a drawn fact with several subjects keeps its first alone, every other fact keeps all, in order |
| Rewiring.ThinnedReachesLess | bench/synthesis/db3_retrieval.py:89-116 | a thinned graph reaches nothing the full one does not at the same depth |
| Rewiring.LinkDensity | bench/synthesis/db3_retrieval.py:118-126 | the counting loop gives the share of facts with two or more subjects, 0 for no facts |
| Rewiring.ThinnedDensity | bench/synthesis/db3_retrieval.py:89-126 | thinning takes exactly the drawn facts out of the linked ones |
| ContentBudget.Fill | bench/synthesis/db3_retrieval.py:179-195 | the loop picks as the recursive account that the next rows characterise |
| ContentBudget.SpendsWithinBudget | bench/synthesis/db3_retrieval.py:179-195 | what is spent is the cost of what was picked, never over the budget |
| ContentBudget.SpendingOnlyGrows | bench/synthesis/db3_retrieval.py:179-195 | a longer list spends at least as much and picks the same first texts |
| ContentBudget.PassedOverNeverFits | bench/synthesis/db3_retrieval.py:179-195 | a fact that was passed over would not fit in what is left at the end either |
| ContentBudget.PicksNothingAfter | bench/synthesis/db3_retrieval.py:179-195 | nothing after a place is picked if and only if no later fact fits in what is left there |
| ContentBudget.StopsAsDocumented | bench/synthesis/db3_retrieval.py:179-195 | the result is what the comment describes if and only if no fact after the first misfit would have fitted in what was left there |
| ContentBudget.GoesOnPastAMisfit | bench/synthesis/db3_retrieval.py:189-192 | an input on which the comment picks nothing and the code does |
| ContentBudget.ArmsShareTheirStart | bench/synthesis/db3_retrieval.py:179-195 | arms whose lists begin alike pick the same first texts, whatever follows |
| Corpus.World.constructor | bench/synthesis/gen_corpus.py:99-100 | an empty functional relation |
| Corpus.World.AddEdge | bench/synthesis/gen_corpus.py:103-107 | the first object of a subject and relation stands; relation and facts stay in one-to-one agreement |
| Corpus.IndexFacts | bench/synthesis/gen_corpus.py:147 | the index finds every fact by its key and nothing else |
| Corpus.FollowFindsTheChain | bench/synthesis/gen_corpus.py:165-176 | following the index gives the one chain of facts along the relations, or there is none |
| Corpus.Walk | bench/synthesis/gen_corpus.py:165-176 | returns a chain of distinct facts, and nothing exactly when no such chain exists |
| Corpus.ChainFollowsRel | bench/synthesis/gen_corpus.py:347-351 | every chain ends where validate's own walk of the relation ends |
| CorpusSessions.CollectCandidates | bench/synthesis/gen_corpus.py:179-188 | the candidates are exactly the chains of distinct facts the templates describe |
| CorpusSessions.AddPairs | bench/synthesis/gen_corpus.py:196-198 | one question adds exactly its pairs, both ways round |
| CorpusSessions.BuildConflicts | bench/synthesis/gen_corpus.py:194-198 | two facts conflict if and only if they differ and some candidate needs both |
| CorpusSessions.PlaceAll | bench/synthesis/gen_corpus.py:200-216 | every fact is in exactly one session of at most six, no session holds a conflict, and a fact is in a later session only because each earlier one has six or holds a conflict with it |
| CorpusSessions.SupportsNeverShare | bench/synthesis/gen_corpus.py:200-216 | a candidate's supports always land in distinct sessions |
| CorpusSessions.Keep | bench/synthesis/gen_corpus.py:238-247 | so the selection's own test for it drops nothing: exactly the one-hop answerable candidates go |
| CorpusSessions.NotOneHopInOrder | bench/synthesis/gen_corpus.py:238-247 | what is kept keeps its order |
| CorpusSessions.ContainsAnywhere | bench/synthesis/gen_corpus.py:231-235 | the substring test succeeds exactly when the text is something, the name, and something |
| CorpusSessions.OneHopMeans | bench/synthesis/gen_corpus.py:231-235 | one hop reaches the gold exactly when some fact with the anchor at an end has both names in its text |
| CorpusSessions.ChooseDepth | bench/synthesis/gen_corpus.py:250-263 | one question per anchor and depth, up to the share; short of it only when the total is reached or every anchor is used; other depths untouched |
| CorpusSessions.ValidateFindsNothing | bench/synthesis/gen_corpus.py:335-354 | none of validate's support, session, one-hop and path-end checks can fire |
| CorpusSessions.ValidationMeans | bench/synthesis/gen_corpus.py:335-354 | validate is silent about a question exactly when its supports exist, lie in sessions of their own, at least two and one per hop, no single fact answers it, and the relation leads from anchor to gold |
| CorpusSessions.Generate | bench/synthesis/gen_corpus.py:194-263 | end to end, for any shuffle: a partition into sessions, questions validate accepts, and shares filled as far as the candidates allow |
| PairedTest.CombIsBinomial | bench/synthesis/db3_arms.py:234 | the coefficients used are the binomial ones |
| PairedTest.TailsMeet | bench/synthesis/db3_arms.py:234 | the two tails of a row make the whole row |
| PairedTest.ExactTwoSided | bench/synthesis/db3_arms.py:233-234 | the formula is the exact two-sided p-value: the share of outcomes at least as lopsided as the observed one |
| PairedTest.PValueShape | bench/synthesis/db3_arms.py:233-234 | symmetric, in (0,1], and 1 exactly when the counts differ by at most one |
| PairedTest.MoreLopsidedIsSmaller | bench/synthesis/db3_arms.py:233-234 | for a fixed total it strictly falls as the counts grow more lopsided, from a difference of two on |
| PairedTest.CountArms | bench/synthesis/db3_arms.py:229-231 | the counting loop gives the pairs only the one arm got right, each way |
| PairedTest.CountsAreTheDiscordant | bench/synthesis/db3_arms.py:229-232 | the two counts together are the pairs with different verdicts, and differ by how many more the one arm got right, which fixes both |
| PairedTest.ArmPValueByAnswers | bench/synthesis/db3_arms.py:229-234 | the p of two arms is the share, among all ways the discordant pairs could fall, of those at least as far apart as their numbers of right answers |
| PairedTest.BaselineDoesNotMatter | bench/synthesis/db3_arms.py:223-234 | exchanging the two arms leaves it as it is |
| SandboxStore.Store.constructor | deploy/builder/session.go:35-37 | an empty store with its limits |
| SandboxStore.Store.PassesCheck | deploy/builder/tools.go:110-112 | an open goes on exactly while fewer than the maximum are stored, whatever is in flight; the step the capacity bound counts |
| SandboxStore.Store.Add | deploy/builder/session.go:39-43 | ends an open in flight under an id never used before: no other session changes, and the new one was not handed out |
| SandboxStore.Store.Get | deploy/builder/session.go:48-57 | answers if and only if the caller owns the session, and only then resets its idle clock; no other session changes |
| SandboxStore.Store.Remove | deploy/builder/session.go:59-63 | afterwards the id is absent whoever removed it first, and will not be handed out; no other session changes |
| SandboxStore.Store.CloseOwn | deploy/builder/tools.go:423-439 | gone afterwards exactly if it was the caller's; no other session changes |
| SandboxStore.Store.RemoveByRun | deploy/builder/session.go:69-83 | hands out, each once, only sessions of that principal and that non-empty run; leaves every other session unchanged and none of those |
| SandboxStore.Store.Expired | deploy/builder/session.go:109-122 | hands out, each once, only sessions past a limit; leaves every session inside both unchanged and no other |
| SandboxStore.CapacityBound | deploy/builder/tools.go:110-172 | with at most k opens ever between check and Add the store never exceeds MaxSessions - 1 + k |
| SandboxStore.CapacityReached | deploy/builder/tools.go:110-172 | and for every k of at least one that many sessions are reached by some such run |
| SandboxStore.HandedOutOnce | deploy/builder/session.go:65-122 | over any run Expired and RemoveByRun together hand out a session at most once, and never one still in the store |
| SandboxStore.BirthIsFixed | deploy/builder/session.go:48-57 | no step changes when a stored session was opened |
| SandboxStore.TouchesCannotOutlive | deploy/builder/tools.go:445-457 | a session that a GC pass leaves was opened within the absolute limit, however often it was touched, and used within the idle limit |
| SandboxStore.LeavesOnlyBy | deploy/builder/session.go:59-122 | over any run a session leaves the store exactly by a close its own principal asked for, a close_run of its own principal and run, or a pass that found it past a limit |
| SandboxStore.IdleClockIsTheOwners | deploy/builder/session.go:48-57 | a stored session is its opener's, and its idle clock shows the owner's last use: a use under another principal does not reset it |
| BoundedBuffer.Buffer.constructor | deploy/builder/engine.go:287-292 | an empty buffer |
| BoundedBuffer.Buffer.Write | deploy/builder/engine.go:294-309 | reports full acceptance, and the buffer still holds the first min(cap, total) bytes of everything written |
| BoundedBuffer.Capture | deploy/builder/engine.go:294-311 | for any chunking the result is the first min(cap, total) bytes of the concatenation |
| BoundedBuffer.Limit | deploy/builder/tools.go:339-342 | a request can only lower the limit |
| BoundedBuffer.OverranExactly | deploy/builder/engine.go:294-309 | the truncated flag is set exactly when bytes did not fit or some write found the buffer full |
| BoundedBuffer.DropIsAnnounced | deploy/builder/tools.go:348-351 | whenever bytes were dropped the flag is set and the marker appended; the marker is a false alarm exactly when the output just fills the limit |
| BoundedBuffer.FlagIgnoresChunking | deploy/builder/engine.go:294-309 | the flag does not depend on the chunking, except when the output just fills the buffer |
| Sieve.ClearMultiples | examples/exp9-prime-sql-memory/primes.py:18 | clears the multiples of i from its square on, and nothing else |
| Sieve.StruckNext | examples/exp9-prime-sql-memory/primes.py:16-18 | skipping a cleared i loses nothing: its multiples are cleared already |
| Sieve.UnstruckIsPrime | examples/exp9-prime-sql-memory/primes.py:16-18 | trying divisors up to the root is enough: below its next square what stands is prime, and nothing else |
| Sieve.Primes | examples/exp9-prime-sql-memory/primes.py:11-21 | for every limit exactly the primes up to it, in increasing order |

## Left out

- Authentication, rate-limit policy and agent resolution around Execute: their outcome is an input of the Prepare step.
- Executor.Cancel goes through the connector, which is not part of this model; it shows as the run finishing.
- The agent loop behind RunOnce: any sequence of events, any result, at any time.
- The answers a resume reads out of a message, and the store it resolves them in: each of the four failures may occur at any resume.
- A2AStream.AskClient: is one call with the registry to itself, so the park it reclaims is there.
- A2AStream.StreamToClient: is one call with the registry to itself; what other calls do meanwhile is the transition system's business.
- SlidingWindow.Limiter.Take: assumes a clock that does not run backwards, because lists pruned at a later time have lost what an earlier one would count.
- TenantLock.HeadGetsItsTurn: says that the steps a waiter needs are few and enabled; that the event loop takes them is not modelled.
- JWT checks, HTTP routing and the retries inside upstream calls of the landing: each call is one answer, or an exception before it reached upstream.
- Unsplash attribution rendering, popovers, CSS and canvas encoding of the image slot; "the img is complete" is read as "no load is pending".
- Floating-point rounding in the crop arithmetic, the link density and the p-value: reals and exact rationals.
- Sieve.Primes: the root is taken as the integer square root; `int(limit ** 0.5)` may be off for limits beyond double precision.
- The database reads, HTTP search and model calls of the benchmark, the rendering of sessions into dialogue, and validate's checks of the rendered files.
- Podman, workspaces, environment injection and exposure in the sandbox sidecar; ListByPrincipal, which copies.
- SandboxStore.Store.Get: hands out the session's value; in the source the caller shares the record, so a later touch shows in it.
- SandboxStore.HandedOutOnce: is about Expired and RemoveByRun; a close that raced with either may ask the engine to remove the same container again.
- CLI, boot wiring, scheduler, cluster coordinator and stores: wiring, or not stateful in a way that would add a hard property.
